/** What regrouping must keep: the leaf blocks of the whole hierarchy and the connections between leaf
    ports that its edges, followed through every exported port, stand for. */
module GraphMeaning {
  import opened Options
  import opened GraphModel
  import opened GraphRegrouping

  /** Where an end of an edge leads: a port of a leaf, or the point at which following it stops. */
  datatype Terminal = LeafPort(block: Id, port: string) | Dangling(block: Id, def: PortDef)

  datatype Link = Link(src: Terminal, dst: Terminal, minBufferSize: nat, weight: int, name: string)

  function Resolve(blocks: seq<Block>, dir: Direction, id: Id, def: PortDef): Terminal
    decreases blocks
  {
    match FindBlock(blocks, id)
    case None => Dangling(id, def)
    case Some(b) =>
      match DefinedPortName(Ports(b, dir), def)
      case None => Dangling(id, def)
      case Some(name) =>
        if b.Leaf? then LeafPort(id, name)
        else match FindExport(b.exports, dir, name)
             case None => Dangling(id, def)
             case Some(x) => Resolve(b.blocks, dir, x.block, ByName(x.internal))
  }

  function LinkOf(blocks: seq<Block>, e: Edge): Link {
    Link(Resolve(blocks, Output, e.src, e.srcPort), Resolve(blocks, Input, e.dst, e.dstPort), e.minBufferSize, e.weight,
         e.name)
  }

  function Links(blocks: seq<Block>, edges: seq<Edge>): multiset<Link> {
    if edges == [] then multiset{}
    else Links(blocks, edges[..|edges| - 1]) + multiset{LinkOf(blocks, edges[|edges| - 1])}
  }

  // The three quantities that are summed over all blocks of a level.

  function InnerLinksOf(b: Block): multiset<Link> {
    if b.Leaf? then multiset{} else Links(b.blocks, b.edges) + InnerLinks(b.blocks)
  }

  function InnerLinks(blocks: seq<Block>): multiset<Link> {
    if blocks == [] then multiset{} else InnerLinksOf(blocks[0]) + InnerLinks(blocks[1..])
  }

  function LeavesOf(b: Block): multiset<Block> {
    if b.Leaf? then multiset{b} else Leaves(b.blocks)
  }

  function Leaves(blocks: seq<Block>): multiset<Block> {
    if blocks == [] then multiset{} else LeavesOf(blocks[0]) + Leaves(blocks[1..])
  }

  function IdsOf(b: Block): multiset<Id> {
    if b.Leaf? then multiset{b.id} else multiset{b.id} + Ids(b.blocks)
  }

  function Ids(blocks: seq<Block>): multiset<Id> {
    if blocks == [] then multiset{} else IdsOf(blocks[0]) + Ids(blocks[1..])
  }

  /** Every connection in the hierarchy, resolved to leaf ports. */
  function Meaning(g: Topology): multiset<Link> {
    Links(g.blocks, g.edges) + InnerLinks(g.blocks)
  }

  // --- well-formed graphs -----------------------------------------------------------------------

  ghost predicate Once<T(!new)>(m: multiset<T>) {
    forall x :: m[x] <= 1
  }

  predicate EdgeInside(blocks: seq<Block>, e: Edge) {
    FindBlock(blocks, e.src).Some? && FindBlock(blocks, e.dst).Some?
  }

  ghost predicate EdgesInside(blocks: seq<Block>, edges: seq<Edge>) {
    forall e :: e in edges ==> EdgeInside(blocks, e)
  }

  ghost predicate Sound(b: Block) {
    b.SubGraph? ==> EdgesInside(b.blocks, b.edges) && forall c :: c in b.blocks ==> Sound(c)
  }

  /** Unique names are unique in the whole hierarchy, and every edge joins blocks of its own level. */
  ghost predicate WellFormed(g: Topology) {
    Once(Ids(g.blocks)) && EdgesInside(g.blocks, g.edges) && forall b :: b in g.blocks ==> Sound(b)
  }

  // --- sums over blocks -------------------------------------------------------------------------

  function Sum<T>(f: Block -> multiset<T>, blocks: seq<Block>): multiset<T> {
    if blocks == [] then multiset{} else f(blocks[0]) + Sum(f, blocks[1..])
  }

  lemma {:induction false} SumAppend<T>(f: Block -> multiset<T>, a: seq<Block>, b: seq<Block>)
    ensures Sum(f, a + b) == Sum(f, a) + Sum(f, b)
  {
    if a == [] {
      assert a + b == b;
    } else {
      assert (a + b)[1..] == a[1..] + b;
      SumAppend(f, a[1..], b);
    }
  }

  lemma SumRemove<T>(f: Block -> multiset<T>, s: seq<Block>, i: nat)
    requires i < |s|
    ensures Sum(f, s) == f(s[i]) + Sum(f, s[..i] + s[i + 1..])
  {
    assert s == s[..i] + s[i..];
    SumAppend(f, s[..i], s[i..]);
    SumAppend(f, s[..i], s[i + 1..]);
    assert s[i..][1..] == s[i + 1..];
  }

  lemma RemoveOne<T>(s: seq<T>, i: nat)
    requires i < |s|
    ensures multiset(s[..i] + s[i + 1..]) == multiset(s) - multiset{s[i]}
  {
    assert s == s[..i] + [s[i]] + s[i + 1..];
  }

  /** Where the first element of one list stands in a permutation of it. */
  lemma Counterpart<T>(a: seq<T>, b: seq<T>) returns (i: nat)
    requires multiset(a) == multiset(b) && a != []
    ensures i < |b| && b[i] == a[0] && multiset(a[1..]) == multiset(b[..i] + b[i + 1..])
  {
    assert a[0] in multiset(b);
    i :| i < |b| && b[i] == a[0];
    RemoveOne(b, i);
    assert multiset(a) == multiset{a[0]} + multiset(a[1..]) by { assert a == [a[0]] + a[1..]; }
  }

  /** A sum over blocks does not depend on their order. */
  lemma {:induction false} SumPermuted<T>(f: Block -> multiset<T>, a: seq<Block>, b: seq<Block>)
    requires multiset(a) == multiset(b)
    ensures Sum(f, a) == Sum(f, b)
  {
    if a == [] {
      assert |multiset(b)| == 0;
    } else {
      var i := Counterpart(a, b);
      SumPermuted(f, a[1..], b[..i] + b[i + 1..]);
      SumRemove(f, b, i);
    }
  }

  lemma {:induction false} AreSums(blocks: seq<Block>)
    ensures InnerLinks(blocks) == Sum(InnerLinksOf, blocks)
    ensures Leaves(blocks) == Sum(LeavesOf, blocks)
    ensures Ids(blocks) == Sum(IdsOf, blocks)
  {
    if blocks != [] { AreSums(blocks[1..]); }
  }

  /** All three sums agree on two block lists that hold the same blocks. */
  lemma SameBlocks(a: seq<Block>, b: seq<Block>)
    requires multiset(a) == multiset(b)
    ensures InnerLinks(a) == InnerLinks(b) && Leaves(a) == Leaves(b) && Ids(a) == Ids(b)
  {
    AreSums(a);
    AreSums(b);
    SumPermuted(InnerLinksOf, a, b);
    SumPermuted(LeavesOf, a, b);
    SumPermuted(IdsOf, a, b);
  }

  lemma Appended(a: seq<Block>, b: seq<Block>)
    ensures InnerLinks(a + b) == InnerLinks(a) + InnerLinks(b)
    ensures Leaves(a + b) == Leaves(a) + Leaves(b)
    ensures Ids(a + b) == Ids(a) + Ids(b)
  {
    AreSums(a);
    AreSums(b);
    AreSums(a + b);
    SumAppend(InnerLinksOf, a, b);
    SumAppend(LeavesOf, a, b);
    SumAppend(IdsOf, a, b);
  }

  lemma OneBlock(b: Block)
    ensures InnerLinks([b]) == InnerLinksOf(b) && Leaves([b]) == LeavesOf(b) && Ids([b]) == IdsOf(b)
  {
    assert [b][1..] == [];
  }

  // --- looking blocks up ------------------------------------------------------------------------

  lemma {:induction false} MemberId(blocks: seq<Block>, b: Block)
    requires b in blocks
    ensures IdsOf(b) <= Ids(blocks)
  {
    if blocks[0] != b { MemberId(blocks[1..], b); }
  }

  lemma {:induction false} FindUnique(blocks: seq<Block>, b: Block)
    requires Once(Ids(blocks)) && b in blocks
    ensures FindBlock(blocks, b.id) == Some(b)
  {
    if blocks[0] != b {
      MemberId(blocks[1..], b);
      assert blocks[0].id in IdsOf(blocks[0]);
      assert b.id in Ids(blocks[1..]);
      assert blocks[0].id == b.id ==> Ids(blocks)[b.id] >= 2;
      assert Once(Ids(blocks[1..])) by {
        forall x ensures Ids(blocks[1..])[x] <= 1 { assert Ids(blocks)[x] <= 1; }
      }
      FindUnique(blocks[1..], b);
    }
  }

  lemma {:induction false} DistinctIds(blocks: seq<Block>, i: nat, j: nat)
    requires Once(Ids(blocks)) && i < j < |blocks|
    ensures blocks[i].id != blocks[j].id
  {
    if i == 0 {
      MemberId(blocks[1..], blocks[j]);
      assert blocks[0].id in IdsOf(blocks[0]) && blocks[j].id in Ids(blocks[1..]);
      assert Ids(blocks)[blocks[0].id] <= 1;
    } else {
      assert Once(Ids(blocks[1..])) by {
        forall x ensures Ids(blocks[1..])[x] <= 1 { assert Ids(blocks)[x] <= 1; }
      }
      DistinctIds(blocks[1..], i - 1, j - 1);
    }
  }

  // --- sums over edges --------------------------------------------------------------------------

  lemma {:induction false} LinksAppend(blocks: seq<Block>, a: seq<Edge>, b: seq<Edge>)
    ensures Links(blocks, a + b) == Links(blocks, a) + Links(blocks, b)
  {
    if b == [] {
      assert a + b == a;
    } else {
      assert (a + b)[..|a + b| - 1] == a + b[..|b| - 1];
      LinksAppend(blocks, a, b[..|b| - 1]);
    }
  }

  lemma {:induction false} LinksPointwise(aBlocks: seq<Block>, a: seq<Edge>, bBlocks: seq<Block>, b: seq<Edge>)
    requires |a| == |b|
    requires forall i :: 0 <= i < |a| ==> LinkOf(aBlocks, a[i]) == LinkOf(bBlocks, b[i])
    ensures Links(aBlocks, a) == Links(bBlocks, b)
  {
    if a != [] { LinksPointwise(aBlocks, a[..|a| - 1], bBlocks, b[..|b| - 1]); }
  }

  lemma {:induction false} LinkIn(blocks: seq<Block>, edges: seq<Edge>, i: nat)
    requires i < |edges|
    ensures LinkOf(blocks, edges[i]) in Links(blocks, edges)
  {
    hide LinkOf;
    if i < |edges| - 1 { LinkIn(blocks, edges[..|edges| - 1], i); }
  }

  lemma {:induction false} LinkFrom(blocks: seq<Block>, edges: seq<Edge>, l: Link) returns (i: nat)
    requires l in Links(blocks, edges)
    ensures i < |edges| && l == LinkOf(blocks, edges[i])
  {
    hide LinkOf;
    i := |edges| - 1;
    if l != LinkOf(blocks, edges[i]) { i := LinkFrom(blocks, edges[..|edges| - 1], l); }
  }

  lemma {:induction false} LinksCount(blocks: seq<Block>, edges: seq<Edge>)
    ensures |Links(blocks, edges)| == |edges|
  {
    hide LinkOf;
    if edges != [] { LinksCount(blocks, edges[..|edges| - 1]); }
  }

  lemma LinksSize(blocks: seq<Block>, edges: seq<Edge>)
    ensures |Links(blocks, edges)| == |edges|
    ensures forall l :: l in Links(blocks, edges) ==> exists e :: e in edges && l == LinkOf(blocks, e)
    ensures forall e :: e in edges ==> LinkOf(blocks, e) in Links(blocks, edges)
  {
    hide LinkOf, Links;
    LinksCount(blocks, edges);
    forall l | l in Links(blocks, edges) ensures exists e :: e in edges && l == LinkOf(blocks, e) {
      var i := LinkFrom(blocks, edges, l);
      assert edges[i] in edges;
    }
    forall e | e in edges ensures LinkOf(blocks, e) in Links(blocks, edges) {
      var i: nat :| i < |edges| && edges[i] == e;
      LinkIn(blocks, edges, i);
    }
  }

  lemma TwoLinks(blocks: seq<Block>, edges: seq<Edge>, i: nat, j: nat)
    requires i < j < |edges|
    ensures multiset{LinkOf(blocks, edges[i]), LinkOf(blocks, edges[j])} <= Links(blocks, edges)
  {
    hide LinkOf, Links;
    assert edges == edges[..i + 1] + edges[i + 1..];
    LinksAppend(blocks, edges[..i + 1], edges[i + 1..]);
    LinkIn(blocks, edges[..i + 1], i);
    LinkIn(blocks, edges[i + 1..], j - i - 1);
  }

  // --- the duplicate check of addEdge -----------------------------------------------------------

  /** No added edge repeats an edge that is already there or one added before it. */
  ghost predicate NoRepeats(edges: seq<Edge>, more: seq<Edge>) {
    forall i :: 0 <= i < |more| ==> !ContainsEdge(edges + more[..i], more[i])
  }

  /** `addEdge` keeps every edge exactly when none of them repeats another. */
  lemma {:induction false} AddEdgesExact(edges: seq<Edge>, more: seq<Edge>)
    ensures edges <= AddEdges(edges, more)
    ensures |AddEdges(edges, more)| <= |edges| + |more|
    ensures AddEdges(edges, more) == edges + more <==> NoRepeats(edges, more)
    ensures |AddEdges(edges, more)| == |edges| + |more| <==> NoRepeats(edges, more)
    ensures forall e :: e in AddEdges(edges, more)[|edges|..] ==> e in more
  {
    if more == [] {
      assert edges + more == edges;
    } else {
      var front := more[..|more| - 1];
      AddEdgesExact(edges, front);
      assert forall i :: 0 <= i < |front| ==> front[..i] == more[..i];
      assert edges + more == edges + front + [more[|more| - 1]];
      var kept := AddEdges(edges, front)[|edges|..];
      assert AddEdges(edges, more)[|edges|..] == kept || AddEdges(edges, more)[|edges|..] == kept + [more[|more| - 1]];
      if NoRepeats(edges, more) {
        assert NoRepeats(edges, front) by {
          forall i | 0 <= i < |front| ensures !ContainsEdge(edges + front[..i], front[i]) {
            assert !ContainsEdge(edges + more[..i], more[i]);
          }
        }
      }
      if NoRepeats(edges, front) && !ContainsEdge(edges + front, more[|more| - 1]) {
        forall i | 0 <= i < |more| ensures !ContainsEdge(edges + more[..i], more[i]) {
          if i < |front| { assert !ContainsEdge(edges + front[..i], front[i]); }
        }
      }
    }
  }
}
