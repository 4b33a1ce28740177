/** Blocks, sub-graphs and edges. A block is named by its unique name, which is how an edge or an
    export refers to it; a sub-graph is a block that owns a graph and a table of exported ports. */
module GraphModel {
  import opened Options
  import opened PortNames

  /** `gr::undefined_size`: a buffer size nobody has chosen. */
  const UNDEFINED_SIZE: nat := SIZE_LIMIT - 1

  type Id = string

  datatype Direction = Input | Output

  /** One entry of a block's port list: a port, or a named collection of ports. */
  datatype Slot =
    | Single(name: string, arithmetic: bool)
    | Collection(name: string, size: nat, arithmetic: bool)

  /** `meta::invalid_index` as the sub-index is `None` here. */
  datatype PortDef = ByIndex(top: nat, sub: Option<nat>) | ByName(name: string)

  datatype Edge = Edge(src: Id, srcPort: PortDef, dst: Id, dstPort: PortDef,
                       minBufferSize: nat, weight: int, name: string)

  datatype Export = Export(block: Id, dir: Direction, internal: string, exported: string, arithmetic: bool)

  datatype Block =
    | Leaf(id: Id, name: string, ins: seq<Slot>, outs: seq<Slot>)
    | SubGraph(id: Id, name: string, blocks: seq<Block>, edges: seq<Edge>, exports: seq<Export>)

  /** The ports a sub-graph block shows: one per export, in export order. */
  function ExportSlots(exports: seq<Export>, dir: Direction): seq<Slot> {
    if exports == [] then [] else
      var front := ExportSlots(exports[..|exports| - 1], dir);
      var last := exports[|exports| - 1];
      if last.dir == dir then front + [Single(last.exported, last.arithmetic)] else front
  }

  function Ports(b: Block, dir: Direction): seq<Slot> {
    match b
    case Leaf(_, _, ins, outs) => if dir == Input then ins else outs
    case SubGraph(_, _, _, _, exports) => ExportSlots(exports, dir)
  }

  function FindBlock(blocks: seq<Block>, id: Id): (r: Option<Block>)
    ensures r.Some? ==> r.value in blocks && r.value.id == id
    ensures r.None? ==> forall b :: b in blocks ==> b.id != id
  {
    if blocks == [] then None
    else if blocks[0].id == id then Some(blocks[0])
    else FindBlock(blocks[1..], id)
  }

  /** The port name a definition stands for; an index past the end of the port list has none. */
  function DefinedPortName(slots: seq<Slot>, def: PortDef): Option<string> {
    match def
    case ByName(name) => Some(name)
    case ByIndex(top, sub) =>
      if top >= |slots| then None
      else if sub.None? then Some(slots[top].name)
      else Some(slots[top].name + "#" + Decimal(sub.value))
  }

  function HashPosition(s: string): (k: nat)
    ensures k <= |s|
    ensures k < |s| ==> s[k] == '#'
    ensures forall i :: 0 <= i < k ==> s[i] != '#'
  {
    if s == "" || s[0] == '#' then 0 else 1 + HashPosition(s[1..])
  }

  function FindSingle(slots: seq<Slot>, name: string): Option<Slot> {
    if slots == [] then None
    else if slots[0].Single? && slots[0].name == name then Some(slots[0])
    else FindSingle(slots[1..], name)
  }

  function FindCollection(slots: seq<Slot>, name: string): (r: Option<Slot>)
    ensures r.Some? ==> r.value.Collection?
  {
    if slots == [] then None
    else if slots[0].Collection? && slots[0].name == name then Some(slots[0])
    else FindCollection(slots[1..], name)
  }

  /** Looks a port up by name and says whether its samples are arithmetic. A '#' in the name makes it
      a collection name and an index; without one only plain ports are searched. */
  function FindPort(slots: seq<Slot>, name: string): Option<bool> {
    var h := HashPosition(name);
    if h == |name| then
      match FindSingle(slots, name)
      case None => None
      case Some(s) => Some(s.arithmetic)
    else
      match ParseIndex(name[h + 1..])
      case None => None
      case Some(i) =>
        match FindCollection(slots, name[..h])
        case None => None
        case Some(c) => if i < c.size then Some(c.arithmetic) else None
  }

  function FindPortByDef(slots: seq<Slot>, def: PortDef): Option<bool> {
    match def
    case ByName(name) => FindPort(slots, name)
    case ByIndex(top, sub) =>
      if top >= |slots| then None
      else match slots[top]
           case Single(_, arithmetic) => if sub.None? then Some(arithmetic) else None
           case Collection(_, size, arithmetic) =>
             if sub.Some? && sub.value < size then Some(arithmetic) else None
  }

  /** Edges compare by their endpoints alone. */
  predicate SameConnection(e: Edge, f: Edge) {
    e.src == f.src && e.dst == f.dst && e.srcPort == f.srcPort && e.dstPort == f.dstPort
  }

  predicate ContainsEdge(edges: seq<Edge>, e: Edge) {
    exists i :: 0 <= i < |edges| && SameConnection(edges[i], e)
  }

  /** `addEdge`: an edge that is already there is refused. */
  function AddEdge(edges: seq<Edge>, e: Edge): seq<Edge> {
    if ContainsEdge(edges, e) then edges else edges + [e]
  }

  function AddEdges(edges: seq<Edge>, more: seq<Edge>): seq<Edge> {
    if more == [] then edges
    else AddEdge(AddEdges(edges, more[..|more| - 1]), more[|more| - 1])
  }

  /** The default of `graph::defaultMinBufferSize`. */
  function DefaultMinBufferSize(arithmetic: bool): nat {
    if arithmetic then 65536 else 64
  }

  /** What `connect` appends: an undefined buffer size is replaced by the default of the source port,
      which counts as arithmetic when it cannot be found. */
  function Connected(e: Edge, sourcePorts: seq<Slot>): Edge {
    var arithmetic := match FindPortByDef(sourcePorts, e.srcPort)
                      case Some(a) => a
                      case None => true;
    e.(minBufferSize := if e.minBufferSize == UNDEFINED_SIZE then DefaultMinBufferSize(arithmetic) else e.minBufferSize)
  }

  function FindExport(exports: seq<Export>, dir: Direction, exported: string): (r: Option<Export>)
    ensures r.Some? ==> r.value in exports && r.value.dir == dir && r.value.exported == exported
    ensures r.None? ==> forall x :: x in exports ==> !(x.dir == dir && x.exported == exported)
  {
    if exports == [] then None
    else if exports[0].dir == dir && exports[0].exported == exported then Some(exports[0])
    else FindExport(exports[1..], dir, exported)
  }

  predicate IsExported(exports: seq<Export>, block: Id, dir: Direction, internal: string) {
    exists i :: 0 <= i < |exports| && exports[i].block == block && exports[i].dir == dir
      && exports[i].internal == internal
  }

  /** `GraphWrapper::exportPort(true, ...)`: refused when the port is exported already, when the block
      is not inside, or when the block has no port of that name. */
  function ExportPort(blocks: seq<Block>, exports: seq<Export>, block: Id, dir: Direction,
                      internal: string, exported: string): Option<seq<Export>> {
    if IsExported(exports, block, dir, internal) then None
    else match FindBlock(blocks, block)
         case None => None
         case Some(b) =>
           match FindPort(Ports(b, dir), internal)
           case None => None
           case Some(arithmetic) => Some(exports + [Export(block, dir, internal, exported, arithmetic)])
  }
}
