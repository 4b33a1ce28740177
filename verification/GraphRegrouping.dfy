/** `Graph::groupBlocks` and `Graph::ungroupBlocks`: what they compute, as functions on the graph's
    two lists, and the class that performs them in place, step by step. */
module GraphRegrouping {
  import opened Options
  import opened PortNames
  import opened GraphModel

  datatype Planned = Planned(block: Id, dir: Direction, internal: string, exported: string)

  /** An edge with one end inside the group, and the exported name that will replace that end. */
  datatype Crossing = Crossing(edge: Edge, port: string, sourceInside: bool)

  datatype Plan = Plan(exports: seq<Planned>, internal: seq<Edge>, crossing: seq<Crossing>)

  datatype Topology = Topology(blocks: seq<Block>, edges: seq<Edge>)

  datatype Outcome =
    | Done | EmptySelection | NoSuchPort | UnknownType | ExportRefused
    | NoGraph | NoSuchBlock | NotExported

  // --- grouping: the plan ---------------------------------------------------------------------

  predicate IsGrouped(targets: seq<Block>, id: Id) {
    exists i :: 0 <= i < |targets| && targets[i].id == id
  }

  /** The exported names of one direction that the plan has already given out. */
  function Taken(exports: seq<Planned>, dir: Direction): (s: set<string>)
    ensures forall n :: n in s <==> exists i :: 0 <= i < |exports| && exports[i].dir == dir && exports[i].exported == n
  {
    set i | 0 <= i < |exports| && exports[i].dir == dir :: exports[i].exported
  }

  function PlannedName(exports: seq<Planned>, block: Id, dir: Direction, internal: string): (r: Option<string>)
    ensures r.Some? <==> exists i ::
                           0 <= i < |exports| && exports[i].block == block && exports[i].dir == dir
                             && exports[i].internal == internal
    ensures r.Some? ==> Planned(block, dir, internal, r.value) in exports
  {
    if exports == [] then None
    else if exports[0].block == block && exports[0].dir == dir && exports[0].internal == internal
         then Some(exports[0].exported)
    else
      var r := PlannedName(exports[1..], block, dir, internal);
      assert forall i :: 1 <= i < |exports| ==> exports[1..][i - 1] == exports[i];
      r
  }

  /** The name under which a port of `block` is exported, planned now if it was not before. */
  function FindOrCreateExport(exports: seq<Planned>, block: Block, dir: Direction,
                              internal: string): (seq<Planned>, string) {
    match PlannedName(exports, block.id, dir, internal)
    case Some(name) => (exports, name)
    case None =>
      var name := FreeCandidate(block.name + "." + internal, Taken(exports, dir), 0);
      (exports + [Planned(block.id, dir, internal, name)], name)
  }

  function InsideEnd(targets: seq<Block>, e: Edge): (Id, PortDef, Direction) {
    if IsGrouped(targets, e.src) then (e.src, e.srcPort, Output) else (e.dst, e.dstPort, Input)
  }

  /** What one edge adds to the plan; `None` when its inner end names a port that does not exist. */
  function PlanEdge(targets: seq<Block>, p: Plan, e: Edge): Option<Plan> {
    var source, destination := IsGrouped(targets, e.src), IsGrouped(targets, e.dst);
    if source && destination then Some(p.(internal := p.internal + [e]))
    else if source || destination then
      var (id, def, dir) := InsideEnd(targets, e);
      var block := FindBlock(targets, id).value;
      match DefinedPortName(Ports(block, dir), def)
      case None => None
      case Some(name) =>
        var (exports, exported) := FindOrCreateExport(p.exports, block, dir, name);
        Some(Plan(exports, p.internal, p.crossing + [Crossing(e, exported, source)]))
    else Some(p)
  }

  function PlanEdges(targets: seq<Block>, edges: seq<Edge>): Option<Plan> {
    if edges == [] then Some(Plan([], [], []))
    else match PlanEdges(targets, edges[..|edges| - 1])
         case None => None
         case Some(p) => PlanEdge(targets, p, edges[|edges| - 1])
  }

  // --- grouping: the move ---------------------------------------------------------------------

  function Ungrouped(targets: seq<Block>, blocks: seq<Block>): seq<Block> {
    if blocks == [] then []
    else
      var front := Ungrouped(targets, blocks[..|blocks| - 1]);
      if IsGrouped(targets, blocks[|blocks| - 1].id) then front else front + [blocks[|blocks| - 1]]
  }

  function Untouched(targets: seq<Block>, edges: seq<Edge>): seq<Edge> {
    if edges == [] then []
    else
      var front, e := Untouched(targets, edges[..|edges| - 1]), edges[|edges| - 1];
      if IsGrouped(targets, e.src) || IsGrouped(targets, e.dst) then front else front + [e]
  }

  function ExportAll(blocks: seq<Block>, planned: seq<Planned>): Option<seq<Export>> {
    if planned == [] then Some([])
    else match ExportAll(blocks, planned[..|planned| - 1])
         case None => None
         case Some(exports) =>
           var x := planned[|planned| - 1];
           ExportPort(blocks, exports, x.block, x.dir, x.internal, x.exported)
  }

  /** A crossing edge with its inner end moved to the sub-graph's exported port. */
  function Redirected(c: Crossing, sub: Id): Edge {
    if c.sourceInside then c.edge.(src := sub, srcPort := ByName(c.port))
    else c.edge.(dst := sub, dstPort := ByName(c.port))
  }

  /** The output ports `connect` looks at: those of a block of the graph, none for any other. */
  function SourcePorts(blocks: seq<Block>, id: Id): seq<Slot> {
    match FindBlock(blocks, id)
    case None => []
    case Some(b) => Ports(b, Output)
  }

  function Reconnected(blocks: seq<Block>, sub: Id, crossing: seq<Crossing>): (r: seq<Edge>)
    ensures |r| == |crossing|
  {
    if crossing == [] then []
    else
      var e := Redirected(crossing[|crossing| - 1], sub);
      Reconnected(blocks, sub, crossing[..|crossing| - 1]) + [Connected(e, SourcePorts(blocks, e.src))]
  }

  /** `groupBlocks`. `spawned` is the unique name and the name of the sub-graph the requested type
      yields, or `None` for a type nobody registered. */
  function Group(g: Topology, targets: seq<Block>, spawned: Option<(Id, string)>): (Outcome, Topology) {
    if targets == [] then (EmptySelection, g)
    else match PlanEdges(targets, g.edges)
         case None => (NoSuchPort, g)
         case Some(p) =>
           if spawned.None? then (UnknownType, g)
           else
             var rest := Topology(Ungrouped(targets, g.blocks), Untouched(targets, g.edges));
             match ExportAll(targets, p.exports)
             case None => (ExportRefused, rest)
             case Some(exports) =>
               var sub := SubGraph(spawned.value.0, spawned.value.1, targets, AddEdges([], p.internal), exports);
               var blocks := rest.blocks + [sub];
               (Done, Topology(blocks, rest.edges + Reconnected(blocks, sub.id, p.crossing)))
  }

  // --- ungrouping -----------------------------------------------------------------------------

  predicate ExportsPresent(blocks: seq<Block>, exports: seq<Export>) {
    forall i :: 0 <= i < |exports| ==> FindBlock(blocks, exports[i].block).Some?
  }

  /** The inner port behind an exported name; an empty name exports nothing. */
  function InnerPort(exports: seq<Export>, dir: Direction, exported: string): Option<Export> {
    if exported == "" then None else FindExport(exports, dir, exported)
  }

  datatype Lookup = Inner(block: Id, name: string) | Missing(why: Outcome)

  /** Where one end of an edge attached to the sub-graph really leads. */
  function ResolveEnd(sub: Block, dir: Direction, def: PortDef): Lookup
    requires sub.SubGraph?
  {
    match DefinedPortName(Ports(sub, dir), def)
    case None => Missing(NoSuchPort)
    case Some(name) =>
      match InnerPort(sub.exports, dir, name)
      case None => Missing(NotExported)
      case Some(x) => Inner(x.block, x.internal)
  }

  /** One end of an outer edge that is attached to the sub-graph, and the inner port it stands for. */
  datatype Attached = Attached(index: nat, inner: Id, port: string, toOutputs: bool)

  function AttachedEnd(sub: Block, dir: Direction, id: Id, def: PortDef, index: nat): (r: seq<Attached>)
    requires sub.SubGraph?
    ensures forall i :: 0 <= i < |r| ==> r[i].index == index
  {
    if id != sub.id then []
    else match ResolveEnd(sub, dir, def)
         case Missing(_) => []
         case Inner(block, name) => [Attached(index, block, name, dir == Output)]
  }

  function AttachedEnds(sub: Block, edges: seq<Edge>): (r: seq<Attached>)
    requires sub.SubGraph?
    ensures forall i :: 0 <= i < |r| ==> r[i].index < |edges|
  {
    if edges == [] then []
    else
      var last, e := |edges| - 1, edges[|edges| - 1];
      AttachedEnds(sub, edges[..last]) + AttachedEnd(sub, Output, e.src, e.srcPort, last)
                                       + AttachedEnd(sub, Input, e.dst, e.dstPort, last)
  }

  function Attach(e: Edge, a: Attached): Edge {
    if a.toOutputs then e.(src := a.inner, srcPort := ByName(a.port))
    else e.(dst := a.inner, dstPort := ByName(a.port))
  }

  function AttachAll(edges: seq<Edge>, attached: seq<Attached>): (r: seq<Edge>)
    requires forall i :: 0 <= i < |attached| ==> attached[i].index < |edges|
    ensures |r| == |edges|
  {
    if attached == [] then edges
    else
      var a, front := attached[|attached| - 1], AttachAll(edges, attached[..|attached| - 1]);
      front[a.index := Attach(front[a.index], a)]
  }

  function EndError(sub: Block, e: Edge): Outcome
    requires sub.SubGraph?
  {
    var source := ResolveEnd(sub, Output, e.srcPort);
    if e.src == sub.id && source.Missing? then source.why
    else
      var destination := ResolveEnd(sub, Input, e.dstPort);
      if e.dst == sub.id && destination.Missing? then destination.why else Done
  }

  /** The first edge, in list order, with an end that leads nowhere decides the error. */
  function AttachmentError(sub: Block, edges: seq<Edge>): Outcome
    requires sub.SubGraph?
  {
    if edges == [] then Done
    else
      var earlier := AttachmentError(sub, edges[..|edges| - 1]);
      if earlier != Done then earlier else EndError(sub, edges[|edges| - 1])
  }

  function RewiredEnd(sub: Block, dir: Direction, id: Id, def: PortDef): (Id, PortDef)
    requires sub.SubGraph?
  {
    if id != sub.id then (id, def)
    else match ResolveEnd(sub, dir, def)
         case Inner(block, name) => (block, ByName(name))
         case Missing(_) => (id, def)
  }

  function RewiredEdge(sub: Block, e: Edge): Edge
    requires sub.SubGraph?
  {
    var (src, srcPort) := RewiredEnd(sub, Output, e.src, e.srcPort);
    var (dst, dstPort) := RewiredEnd(sub, Input, e.dst, e.dstPort);
    e.(src := src, srcPort := srcPort, dst := dst, dstPort := dstPort)
  }

  function Rewired(sub: Block, edges: seq<Edge>): (r: seq<Edge>)
    requires sub.SubGraph?
    ensures |r| == |edges|
    ensures forall i :: 0 <= i < |edges| ==> r[i] == RewiredEdge(sub, edges[i])
  {
    seq(|edges|, i requires 0 <= i < |edges| => RewiredEdge(sub, edges[i]))
  }

  function Without(blocks: seq<Block>, id: Id): seq<Block> {
    if blocks == [] then []
    else
      var front := Without(blocks[..|blocks| - 1], id);
      if blocks[|blocks| - 1].id == id then front else front + [blocks[|blocks| - 1]]
  }

  /** `ungroupBlocks`: the duplicate check of `addEdge` sees the outer edges before they are rewired. */
  function Ungroup(g: Topology, sub: Block): (Outcome, Topology) {
    if sub.Leaf? then (NoGraph, g)
    else if !ExportsPresent(sub.blocks, sub.exports) then (NoSuchBlock, g)
    else
      var error := AttachmentError(sub, g.edges);
      if error != Done then (error, g)
      else
        var all := AddEdges(g.edges, sub.edges);
        assert |all| >= |g.edges| by { AddEdgesKeeps(g.edges, sub.edges); }
        (Done, Topology(Without(g.blocks + sub.blocks, sub.id), Rewired(sub, g.edges) + all[|g.edges|..]))
  }

  lemma {:induction false} AddEdgesKeeps(edges: seq<Edge>, more: seq<Edge>)
    ensures edges <= AddEdges(edges, more)
  {
    if more != [] { AddEdgesKeeps(edges, more[..|more| - 1]); }
  }

  lemma {:induction false} AttachAllConcat(edges: seq<Edge>, a: seq<Attached>, b: seq<Attached>)
    requires forall i :: 0 <= i < |a| ==> a[i].index < |edges|
    requires forall i :: 0 <= i < |b| ==> b[i].index < |edges|
    ensures AttachAll(edges, a + b) == AttachAll(AttachAll(edges, a), b)
  {
    if b == [] {
      assert a + b == a;
    } else {
      assert (a + b)[..|a + b| - 1] == a + b[..|b| - 1];
      AttachAllConcat(edges, a, b[..|b| - 1]);
    }
  }

  lemma AttachOneEnd(sub: Block, dir: Direction, id: Id, def: PortDef, edges: seq<Edge>, index: nat)
    requires sub.SubGraph? && index < |edges|
    ensures var (newId, newDef) := RewiredEnd(sub, dir, id, def);
            var a := AttachedEnd(sub, dir, id, def, index);
            (a == [] && (id == sub.id ==> ResolveEnd(sub, dir, def).Missing?) && (newId, newDef) == (id, def))
            || (|a| == 1
                && AttachAll(edges, a)
                   == edges[index := Attach(edges[index], Attached(index, newId, a[0].port, dir == Output))]
                && newDef == ByName(a[0].port))
  {
    var a := AttachedEnd(sub, dir, id, def, index);
    if a != [] {
      assert a[..|a| - 1] == [];
      assert AttachAll(edges, a[..|a| - 1]) == edges;
    }
  }

  lemma AttachBothEnds(sub: Block, e: Edge, edges: seq<Edge>, index: nat)
    requires sub.SubGraph? && index < |edges| && edges[index] == e
    ensures AttachAll(AttachAll(edges, AttachedEnd(sub, Output, e.src, e.srcPort, index)),
                      AttachedEnd(sub, Input, e.dst, e.dstPort, index))
            == edges[index := RewiredEdge(sub, e)]
  {
    AttachOneEnd(sub, Output, e.src, e.srcPort, edges, index);
    var half := AttachAll(edges, AttachedEnd(sub, Output, e.src, e.srcPort, index));
    AttachOneEnd(sub, Input, e.dst, e.dstPort, half, index);
    assert edges[index := e] == edges;
  }

  lemma RewiredAppend(sub: Block, edges: seq<Edge>, e: Edge)
    requires sub.SubGraph?
    ensures Rewired(sub, edges + [e]) == Rewired(sub, edges) + [RewiredEdge(sub, e)]
  {
  }

  lemma ReplaceAfter<T>(front: seq<T>, all: seq<T>, x: T)
    requires |front| < |all|
    ensures (front + all[|front|..])[|front| := x] == front + [x] + all[|front| + 1..]
  {
  }

  lemma AttachThree(edges: seq<Edge>, before: seq<Attached>, out: seq<Attached>, inn: seq<Attached>)
    requires forall i :: 0 <= i < |before| ==> before[i].index < |edges|
    requires forall i :: 0 <= i < |out| ==> out[i].index < |edges|
    requires forall i :: 0 <= i < |inn| ==> inn[i].index < |edges|
    ensures AttachAll(edges, before + out + inn) == AttachAll(AttachAll(AttachAll(edges, before), out), inn)
  {
    AttachAllConcat(edges, before + out, inn);
    AttachAllConcat(edges, before, out);
  }

  /** Attaching the recorded ends one by one rewires every outer edge and leaves the others alone. */
  lemma {:induction false} AttachedEndsRewire(sub: Block, edges: seq<Edge>, all: seq<Edge>)
    requires sub.SubGraph? && edges <= all
    ensures AttachAll(all, AttachedEnds(sub, edges)) == Rewired(sub, edges) + all[|edges|..]
  {
    hide RewiredEdge, AttachedEnd;
    if edges == [] {
      assert Rewired(sub, edges) + all[|edges|..] == all;
    } else {
      hide AttachAll, AttachedEnds, Rewired;
      var front, e := edges[..|edges| - 1], edges[|edges| - 1];
      assert edges == front + [e];
      AttachedEndsRewire(sub, front, all);
      AttachLastEdge(sub, front, e, all);
    }
  }

  lemma AttachLastEdge(sub: Block, front: seq<Edge>, e: Edge, all: seq<Edge>)
    requires sub.SubGraph? && front + [e] <= all
    requires AttachAll(all, AttachedEnds(sub, front)) == Rewired(sub, front) + all[|front|..]
    ensures AttachAll(all, AttachedEnds(sub, front + [e])) == Rewired(sub, front + [e]) + all[|front + [e]|..]
  {
    hide RewiredEdge, AttachedEnd, AttachAll, Rewired;
    var last := |front|;
    AttachedEndsAppend(sub, front, e);
    AttachThree(all, AttachedEnds(sub, front), AttachedEnd(sub, Output, e.src, e.srcPort, last),
                AttachedEnd(sub, Input, e.dst, e.dstPort, last));
    hide AttachedEnds;
    AttachBothEnds(sub, e, AttachAll(all, AttachedEnds(sub, front)), last);
    ReplaceAfter(Rewired(sub, front), all, RewiredEdge(sub, e));
    RewiredAppend(sub, front, e);
  }

  lemma AttachedEndsAppend(sub: Block, front: seq<Edge>, e: Edge)
    requires sub.SubGraph?
    ensures AttachedEnds(sub, front + [e])
            == AttachedEnds(sub, front) + AttachedEnd(sub, Output, e.src, e.srcPort, |front|)
              + AttachedEnd(sub, Input, e.dst, e.dstPort, |front|)
  {
    assert (front + [e])[..|front + [e]| - 1] == front;
  }

  lemma FindExportAppend(exports: seq<Export>, x: Export, dir: Direction, exported: string)
    ensures FindExport(exports + [x], dir, exported) ==
            if FindExport(exports, dir, exported).Some? then FindExport(exports, dir, exported)
            else if x.dir == dir && x.exported == exported then Some(x) else None
  {
    if exports == [] {
      assert exports + [x] == [x];
    } else {
      assert (exports + [x])[1..] == exports[1..] + [x];
    }
  }

  // --- the in-place algorithms ------------------------------------------------------------------

  class Graph {
    var blocks: seq<Block>
    var edges: seq<Edge>

    constructor (blocks: seq<Block>, edges: seq<Edge>)
      ensures Shape() == Topology(blocks, edges)
    {
      this.blocks, this.edges := blocks, edges;
    }

    function Shape(): Topology
      reads this
    {
      Topology(blocks, edges)
    }

    method AddEdge(e: Edge) returns (added: bool)
      modifies `edges
      ensures edges == GraphModel.AddEdge(old(edges), e)
      ensures added <==> !ContainsEdge(old(edges), e)
    {
      var i := 0;
      while i < |edges|
        invariant 0 <= i <= |edges|
        invariant forall j :: 0 <= j < i ==> !SameConnection(edges[j], e)
      {
        if SameConnection(edges[i], e) { return false; }
        i := i + 1;
      }
      edges := edges + [e];
      added := true;
    }

    /** One edge more, with the same ends, weight and name. Its buffer size is defined, and is the given
        one if that was. */
    method Connect(e: Edge)
      modifies `edges
      ensures edges == old(edges) + [Connected(e, SourcePorts(blocks, e.src))]
      ensures var joined := edges[|edges| - 1];
              && SameConnection(joined, e) && joined.weight == e.weight && joined.name == e.name
              && joined.minBufferSize != UNDEFINED_SIZE
              && (e.minBufferSize != UNDEFINED_SIZE ==> joined == e)
    {
      edges := edges + [Connected(e, SourcePorts(blocks, e.src))];
    }

    /** The sub-graph the grouped blocks went to is the last block of the graph afterwards. */
    method GroupBlocks(targets: seq<Block>, spawned: Option<(Id, string)>) returns (outcome: Outcome)
      modifies this
      ensures (outcome, Shape()) == Group(old(Shape()), targets, spawned)
    {
      if targets == [] { return EmptySelection; }
      var plan := PlanGroup(targets);
      if plan.None? { return NoSuchPort; }
      if spawned.None? { return UnknownType; }

      EraseGrouped(targets);
      var inner := new Graph(targets, []);
      inner.AddAllEdges(plan.value.internal);
      var table := ExportPlanned(targets, plan.value.exports);
      if table.None? { return ExportRefused; }

      var sub := SubGraph(spawned.value.0, spawned.value.1, inner.blocks, inner.edges, table.value);
      blocks := blocks + [sub];
      Reconnect(sub.id, plan.value.crossing);
      outcome := Done;
    }

    method PlanGroup(targets: seq<Block>) returns (plan: Option<Plan>)
      ensures plan == PlanEdges(targets, edges)
    {
      var exports: seq<Planned>, internal: seq<Edge>, crossing: seq<Crossing> := [], [], [];
      var i := 0;
      while i < |edges|
        invariant 0 <= i <= |edges|
        invariant PlanEdges(targets, edges[..i]) == Some(Plan(exports, internal, crossing))
      {
        var edge := edges[i];
        assert edges[..i + 1][..i] == edges[..i];
        var sourceGrouped, destinationGrouped := IsGrouped(targets, edge.src), IsGrouped(targets, edge.dst);
        if sourceGrouped && destinationGrouped {
          internal := internal + [edge];
        } else if sourceGrouped || destinationGrouped {
          var (id, def, dir) := InsideEnd(targets, edge);
          var block := FindBlock(targets, id).value;
          var portName := DefinedPortName(Ports(block, dir), def);
          if portName.None? {
            PlanFailsEarly(targets, edges, i + 1);
            return None;
          }
          var exported;
          exports, exported := PlanExport(exports, block, dir, portName.value);
          crossing := crossing + [Crossing(edge, exported, sourceGrouped)];
        }
        i := i + 1;
      }
      assert edges[..i] == edges;
      plan := Some(Plan(exports, internal, crossing));
    }

    method AddAllEdges(more: seq<Edge>)
      modifies `edges
      ensures edges == AddEdges(old(edges), more)
    {
      var i := 0;
      while i < |more|
        invariant 0 <= i <= |more| && edges == AddEdges(old(edges), more[..i])
      {
        assert more[..i + 1][..i] == more[..i];
        var _ := AddEdge(more[i]);
        i := i + 1;
      }
      assert more[..i] == more;
    }

    static method ExportPlanned(blocks: seq<Block>, planned: seq<Planned>) returns (table: Option<seq<Export>>)
      ensures table == ExportAll(blocks, planned)
    {
      var exports: seq<Export>, i := [], 0;
      while i < |planned|
        invariant 0 <= i <= |planned| && ExportAll(blocks, planned[..i]) == Some(exports)
      {
        var x := planned[i];
        assert planned[..i + 1][..i] == planned[..i];
        var result := ExportPort(blocks, exports, x.block, x.dir, x.internal, x.exported);
        if result.None? {
          ExportFailsEarly(blocks, planned, i + 1);
          return None;
        }
        exports := result.value;
        i := i + 1;
      }
      assert planned[..i] == planned;
      table := Some(exports);
    }

    method Reconnect(subId: Id, crossing: seq<Crossing>)
      modifies `edges
      ensures edges == old(edges) + Reconnected(blocks, subId, crossing)
    {
      var i := 0;
      while i < |crossing|
        invariant 0 <= i <= |crossing| && edges == old(edges) + Reconnected(blocks, subId, crossing[..i])
      {
        assert crossing[..i + 1][..i] == crossing[..i];
        Connect(Redirected(crossing[i], subId));
        i := i + 1;
      }
      assert crossing[..i] == crossing;
    }

    /** The export planned for a port: an earlier one, or the first free name of the candidates. */
    static method PlanExport(exports: seq<Planned>, block: Block, dir: Direction, internal: string)
      returns (planned: seq<Planned>, exportedName: string)
      ensures (planned, exportedName) == FindOrCreateExport(exports, block, dir, internal)
    {
      var known := PlannedName(exports, block.id, dir, internal);
      if known.Some? { return exports, known.value; }
      var base := block.name + "." + internal;
      var taken := Taken(exports, dir);
      exportedName := base;
      var suffix := 1;
      TakenCandidates(base, 0, taken);
      while exportedName in taken
        invariant suffix >= 1 && exportedName == Candidate(base, suffix - 1)
        invariant forall j: nat :: j < suffix - 1 ==> Candidate(base, j) in taken
        invariant FreeCandidate(base, taken, suffix - 1) == FreeCandidate(base, taken, 0)
        decreases |taken| - suffix
      {
        TakenCandidates(base, suffix, taken);
        exportedName := Candidate(base, suffix);
        suffix := suffix + 1;
      }
      planned := exports + [Planned(block.id, dir, internal, exportedName)];
    }

    method EraseGrouped(targets: seq<Block>)
      modifies this
      ensures blocks == Ungrouped(targets, old(blocks)) && edges == Untouched(targets, old(edges))
    {
      var keptEdges: seq<Edge>, i := [], 0;
      while i < |edges|
        invariant 0 <= i <= |edges| && keptEdges == Untouched(targets, edges[..i])
      {
        assert edges[..i + 1][..i] == edges[..i];
        if !(IsGrouped(targets, edges[i].src) || IsGrouped(targets, edges[i].dst)) {
          keptEdges := keptEdges + [edges[i]];
        }
        i := i + 1;
      }
      assert edges[..i] == edges;
      var keptBlocks: seq<Block> := [];
      i := 0;
      while i < |blocks|
        invariant 0 <= i <= |blocks| && keptBlocks == Ungrouped(targets, blocks[..i])
      {
        assert blocks[..i + 1][..i] == blocks[..i];
        if !IsGrouped(targets, blocks[i].id) { keptBlocks := keptBlocks + [blocks[i]]; }
        i := i + 1;
      }
      assert blocks[..i] == blocks;
      blocks, edges := keptBlocks, keptEdges;
    }

    /** The exported names of one direction with the inner ports behind them; `None` when a block of
        the export table is not inside any more. The first entry of a name wins. */
    static method MapExternalNames(sub: Block, dir: Direction) returns (m: Option<map<string, (Id, string)>>)
      requires sub.SubGraph?
      ensures m.None? <==> !BlocksInside(sub.blocks, sub.exports, dir)
      ensures m.Some? ==> MapsNames(m.value, sub.exports, dir)
    {
      hide MapsNames, FindBlock, BlocksInside;
      var names: map<string, (Id, string)>, i := map[], 0;
      NoNames(dir);
      NoBlocks(sub.blocks, dir);
      while i < |sub.exports|
        invariant 0 <= i <= |sub.exports| && MapsNames(names, sub.exports[..i], dir)
        invariant BlocksInside(sub.blocks, sub.exports[..i], dir)
      {
        var x := sub.exports[i];
        assert sub.exports[..i + 1] == sub.exports[..i] + [x];
        OneMoreName(names, sub.exports[..i], x, dir);
        OneMoreBlock(sub.blocks, sub.exports, i, dir);
        if x.dir == dir {
          if FindBlock(sub.blocks, x.block).None? { return None; }
          if x.exported != "" && x.exported !in names { names := names[x.exported := (x.block, x.internal)]; }
        }
        i := i + 1;
      }
      assert sub.exports[..i] == sub.exports;
      m := Some(names);
    }

    /** Every exported port of a direction belongs to a block inside. */
    static predicate BlocksInside(blocks: seq<Block>, exports: seq<Export>, dir: Direction) {
      forall i :: 0 <= i < |exports| && exports[i].dir == dir ==> FindBlock(blocks, exports[i].block).Some?
    }

    static lemma NoBlocks(blocks: seq<Block>, dir: Direction)
      ensures BlocksInside(blocks, [], dir)
    {
    }

    static lemma OneMoreBlock(blocks: seq<Block>, exports: seq<Export>, i: nat, dir: Direction)
      requires i < |exports| && BlocksInside(blocks, exports[..i], dir)
      ensures BlocksInside(blocks, exports[..i + 1], dir) <==>
              (exports[i].dir == dir ==> FindBlock(blocks, exports[i].block).Some?)
      ensures BlocksInside(blocks, exports, dir) ==> BlocksInside(blocks, exports[..i + 1], dir)
    {
      hide FindBlock;
      var more := exports[..i + 1];
      assert more[i] == exports[i];
      forall j | 0 <= j < i ensures more[j] == exports[..i][j] {}
    }

    ghost static predicate MapsNames(names: map<string, (Id, string)>, exports: seq<Export>, dir: Direction) {
      forall n :: MapsName(names, exports, dir, n)
    }

    ghost static predicate MapsName(names: map<string, (Id, string)>, exports: seq<Export>, dir: Direction, n: string) {
      var port := InnerPort(exports, dir, n);
      (n in names <==> port.Some?) && (n in names ==> names[n] == (port.value.block, port.value.internal))
    }

    static lemma NoNames(dir: Direction)
      ensures MapsNames(map[], [], dir)
    {
    }

    /** The map after one more entry of the export table. */
    static lemma OneMoreName(names: map<string, (Id, string)>, exports: seq<Export>, x: Export, dir: Direction)
      requires MapsNames(names, exports, dir)
      ensures MapsNames(if x.dir == dir && x.exported != "" && x.exported !in names
                        then names[x.exported := (x.block, x.internal)]
                        else names, exports + [x], dir)
    {
      hide FindExport;
      var more := if x.dir == dir && x.exported != "" && x.exported !in names
                  then names[x.exported := (x.block, x.internal)]
                  else names;
      forall n ensures MapsName(more, exports + [x], dir, n) {
        assert MapsName(names, exports, dir, n);
        FindExportAppend(exports, x, dir, n);
      }
    }

    method UngroupBlocks(sub: Block) returns (outcome: Outcome)
      modifies this
      ensures (outcome, Shape()) == Ungroup(old(Shape()), sub)
    {
      if sub.Leaf? { return NoGraph; }
      var inputs := MapExternalNames(sub, Input);
      var outputs := MapExternalNames(sub, Output);
      if inputs.None? || outputs.None? { return NoSuchBlock; }
      var connected;
      outcome, connected := CollectAttached(sub, inputs.value, outputs.value);
      if outcome != Done { return; }

      blocks := blocks + sub.blocks;
      AddAllEdges(sub.edges);
      AddEdgesKeeps(old(edges), sub.edges);
      AttachedEndsRewire(sub, old(edges), edges);
      AttachEnds(connected);
      EraseBlock(sub.id);
    }

    /** Finds every edge attached to the sub-graph before anything is moved. */
    method CollectAttached(sub: Block, inputs: map<string, (Id, string)>, outputs: map<string, (Id, string)>)
      returns (error: Outcome, connected: seq<Attached>)
      requires sub.SubGraph? && MapsNames(inputs, sub.exports, Input) && MapsNames(outputs, sub.exports, Output)
      ensures error == AttachmentError(sub, edges)
      ensures error == Done ==> connected == AttachedEnds(sub, edges)
    {
      connected := [];
      var i := 0;
      while i < |edges|
        invariant 0 <= i <= |edges|
        invariant AttachmentError(sub, edges[..i]) == Done && connected == AttachedEnds(sub, edges[..i])
      {
        var edge := edges[i];
        assert edges[..i + 1][..i] == edges[..i];
        var source := LookUpEnd(sub, Output, edge.src, edge.srcPort, i, outputs);
        if source.None? {
          UngroupFailsEarly(sub, edges, i + 1);
          return EndError(sub, edge), connected;
        }
        var destination := LookUpEnd(sub, Input, edge.dst, edge.dstPort, i, inputs);
        if destination.None? {
          UngroupFailsEarly(sub, edges, i + 1);
          return EndError(sub, edge), connected;
        }
        connected := connected + source.value + destination.value;
        i := i + 1;
      }
      assert edges[..i] == edges;
      error := Done;
    }

    static method LookUpEnd(sub: Block, dir: Direction, id: Id, def: PortDef, index: nat,
                            names: map<string, (Id, string)>)
      returns (r: Option<seq<Attached>>)
      requires sub.SubGraph? && MapsNames(names, sub.exports, dir)
      ensures r.None? <==> id == sub.id && ResolveEnd(sub, dir, def).Missing?
      ensures r.Some? ==> r.value == AttachedEnd(sub, dir, id, def, index)
    {
      if id != sub.id { return Some([]); }
      var name := DefinedPortName(Ports(sub, dir), def);
      assert name.Some? ==> MapsName(names, sub.exports, dir, name.value);
      if name.None? || name.value !in names { return None; }
      r := Some([Attached(index, names[name.value].0, names[name.value].1, dir == Output)]);
    }

    method AttachEnds(connected: seq<Attached>)
      requires forall i :: 0 <= i < |connected| ==> connected[i].index < |edges|
      modifies `edges
      ensures edges == AttachAll(old(edges), connected)
    {
      var i := 0;
      while i < |connected|
        invariant 0 <= i <= |connected| && edges == AttachAll(old(edges), connected[..i])
      {
        assert connected[..i + 1][..i] == connected[..i];
        var a := connected[i];
        edges := edges[a.index := Attach(edges[a.index], a)];
        i := i + 1;
      }
      assert connected[..i] == connected;
    }

    method EraseBlock(id: Id)
      modifies `blocks
      ensures blocks == Without(old(blocks), id)
    {
      var kept: seq<Block>, i := [], 0;
      while i < |blocks|
        invariant 0 <= i <= |blocks| && blocks == old(blocks) && kept == Without(blocks[..i], id)
      {
        assert blocks[..i + 1][..i] == blocks[..i];
        if blocks[i].id != id { kept := kept + [blocks[i]]; }
        i := i + 1;
      }
      assert blocks[..i] == blocks;
      blocks := kept;
    }
  }

  lemma {:induction false} PlanFailsEarly(targets: seq<Block>, edges: seq<Edge>, n: nat)
    requires n <= |edges| && PlanEdges(targets, edges[..n]).None?
    ensures PlanEdges(targets, edges).None?
  {
    if n == |edges| {
      assert edges[..n] == edges;
    } else {
      assert edges[..|edges| - 1][..n] == edges[..n];
      PlanFailsEarly(targets, edges[..|edges| - 1], n);
    }
  }

  lemma {:induction false} ExportFailsEarly(blocks: seq<Block>, planned: seq<Planned>, n: nat)
    requires n <= |planned| && ExportAll(blocks, planned[..n]).None?
    ensures ExportAll(blocks, planned).None?
  {
    if n == |planned| {
      assert planned[..n] == planned;
    } else {
      assert planned[..|planned| - 1][..n] == planned[..n];
      ExportFailsEarly(blocks, planned[..|planned| - 1], n);
    }
  }

  lemma {:induction false} UngroupFailsEarly(sub: Block, edges: seq<Edge>, n: nat)
    requires sub.SubGraph? && n <= |edges| && AttachmentError(sub, edges[..n]) != Done
    ensures AttachmentError(sub, edges) == AttachmentError(sub, edges[..n])
  {
    if n == |edges| {
      assert edges[..n] == edges;
    } else {
      assert edges[..|edges| - 1][..n] == edges[..n];
      UngroupFailsEarly(sub, edges[..|edges| - 1], n);
    }
  }
}
