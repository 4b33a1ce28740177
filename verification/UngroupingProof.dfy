/** What `ungroupBlocks` keeps: the leaves always, the connections exactly when no inner edge repeats
    another; and that it undoes a grouping. */
module UngroupingProof {
  import opened Options
  import opened GraphModel
  import opened GraphRegrouping
  import opened GraphMeaning
  import opened GroupingProof

  lemma {:induction false} WithoutAppend(a: seq<Block>, b: seq<Block>, id: Id)
    ensures Without(a + b, id) == Without(a, id) + Without(b, id)
  {
    if b == [] {
      assert a + b == a;
    } else {
      assert (a + b)[..|a + b| - 1] == a + b[..|b| - 1];
      WithoutAppend(a, b[..|b| - 1], id);
    }
  }

  lemma {:induction false} WithoutNothing(blocks: seq<Block>, id: Id)
    requires forall i :: 0 <= i < |blocks| ==> blocks[i].id != id
    ensures Without(blocks, id) == blocks
  {
    if blocks != [] { WithoutNothing(blocks[..|blocks| - 1], id); }
  }

  /** The blocks around the sub-graph; after ungrouping, its contents follow them. */
  function Around(blocks: seq<Block>, i: nat): seq<Block>
    requires i < |blocks|
  {
    blocks[..i] + blocks[i + 1..]
  }

  lemma ContentsSums(blocks: seq<Block>, sub: Block, i: nat)
    requires i < |blocks| && blocks[i] == sub && sub.SubGraph?
    ensures Ids(Around(blocks, i) + sub.blocks) + multiset{sub.id} == Ids(blocks)
    ensures Leaves(Around(blocks, i) + sub.blocks) == Leaves(blocks)
    ensures InnerLinks(Around(blocks, i) + sub.blocks) + Links(sub.blocks, sub.edges) == InnerLinks(blocks)
    ensures Ids(blocks) == Ids(Around(blocks, i)) + Ids(sub.blocks) + multiset{sub.id}
  {
    var around := Around(blocks, i);
    MoveToEnd(blocks, i);
    SameBlocks(blocks, around + [sub]);
    Appended(around, [sub]);
    Appended(around, sub.blocks);
    OneBlock(sub);
    assert IdsOf(sub) == multiset{sub.id} + Ids(sub.blocks)
           && InnerLinksOf(sub) == Links(sub.blocks, sub.edges) + InnerLinks(sub.blocks);
    hide Around, Ids, Leaves, InnerLinks, Links, IdsOf, LeavesOf, InnerLinksOf;
    Exchange(Ids(around), Ids(sub.blocks), multiset{sub.id});
    Exchange(InnerLinks(around), InnerLinks(sub.blocks), Links(sub.blocks, sub.edges));
  }

  lemma MoveToEnd<T>(s: seq<T>, i: nat)
    requires i < |s|
    ensures multiset(s) == multiset(s[..i] + s[i + 1..] + [s[i]])
  {
    assert s == s[..i] + [s[i]] + s[i + 1..];
  }

  lemma Exchange<T>(a: multiset<T>, b: multiset<T>, x: multiset<T>)
    ensures a + b + x == a + (x + b)
  {
  }

  lemma SubIdElsewhere(blocks: seq<Block>, sub: Block, i: nat)
    requires Once(Ids(blocks)) && i < |blocks| && blocks[i] == sub && sub.SubGraph?
    ensures forall b :: b in Around(blocks, i) || b in sub.blocks ==> b.id != sub.id
  {
    ContentsSums(blocks, sub, i);
    assert Ids(blocks)[sub.id] <= 1;
    forall b | b in Around(blocks, i) || b in sub.blocks ensures b.id != sub.id {
      assert b.id in IdsOf(b);
      if b in sub.blocks { MemberId(sub.blocks, b); } else { MemberId(Around(blocks, i), b); }
    }
  }

  lemma ContentsReplaceSubGraph(g: Topology, sub: Block, i: nat)
    requires WellFormed(g) && i < |g.blocks| && g.blocks[i] == sub && sub.SubGraph?
    ensures Without(g.blocks + sub.blocks, sub.id) == Around(g.blocks, i) + sub.blocks
  {
    var pre, post := g.blocks[..i], g.blocks[i + 1..];
    SubIdElsewhere(g.blocks, sub, i);
    hide WellFormed, Ids, Once;
    assert forall b :: b in pre || b in post ==> b in Around(g.blocks, i);
    assert g.blocks == pre + [sub] + post;
    WithoutAppend(g.blocks, sub.blocks, sub.id);
    WithoutAppend(pre + [sub], post, sub.id);
    WithoutAppend(pre, [sub], sub.id);
    assert [sub][..0] == [];
    assert Without([sub], sub.id) == [];
    hide Without;
    WithoutNothing(pre, sub.id);
    WithoutNothing(post, sub.id);
    WithoutNothing(sub.blocks, sub.id);
  }

  /** Lookups after ungrouping: outer blocks as before, contents as inside. */
  lemma UngroupedLookups(g: Topology, sub: Block, i: nat)
    requires WellFormed(g) && i < |g.blocks| && g.blocks[i] == sub && sub.SubGraph?
    ensures var blocks := Around(g.blocks, i) + sub.blocks;
            && Once(Ids(blocks))
            && (forall b :: b in g.blocks ==> FindBlock(g.blocks, b.id) == Some(b))
            && (forall b :: b in g.blocks && b.id != sub.id ==> FindBlock(blocks, b.id) == Some(b))
            && (forall b ::
                  b in sub.blocks
                  ==> FindBlock(blocks, b.id) == FindBlock(sub.blocks, b.id) == Some(b)
                      && FindBlock(g.blocks, b.id) == None)
  {
    var around := Around(g.blocks, i);
    var blocks := around + sub.blocks;
    ContentsSums(g.blocks, sub, i);
    forall x ensures Ids(blocks)[x] <= 1 { assert Ids(g.blocks)[x] <= 1; }
    Appended(around, sub.blocks);
    forall x ensures Ids(sub.blocks)[x] <= 1 { assert Ids(blocks)[x] <= 1; }
    forall b | b in g.blocks ensures FindBlock(g.blocks, b.id) == Some(b) { FindUnique(g.blocks, b); }
    forall b | b in g.blocks && b.id != sub.id ensures FindBlock(blocks, b.id) == Some(b) {
      assert b in blocks;
      FindUnique(blocks, b);
    }
    forall b | b in sub.blocks
      ensures FindBlock(blocks, b.id) == Some(b) && FindBlock(sub.blocks, b.id) == Some(b)
      ensures FindBlock(g.blocks, b.id) == None
    {
      FindUnique(blocks, b);
      FindUnique(sub.blocks, b);
      InnerIdHidden(g, sub, i, b);
    }
  }

  lemma InnerIdHidden(g: Topology, sub: Block, i: nat, b: Block)
    requires WellFormed(g) && i < |g.blocks| && g.blocks[i] == sub && sub.SubGraph? && b in sub.blocks
    ensures FindBlock(g.blocks, b.id) == None
  {
    SubIdElsewhere(g.blocks, sub, i);
    forall c | c in g.blocks ensures c.id != b.id {
      if c != sub {
        assert c in Around(g.blocks, i);
        IdsApart(g.blocks, sub, i, b, c);
      }
    }
  }

  lemma IdsApart(blocks: seq<Block>, sub: Block, i: nat, b: Block, c: Block)
    requires Once(Ids(blocks)) && i < |blocks| && blocks[i] == sub && sub.SubGraph? && b in sub.blocks
    requires c in Around(blocks, i)
    ensures b.id != c.id
  {
    ContentsSums(blocks, sub, i);
    MemberId(sub.blocks, b);
    MemberId(Around(blocks, i), c);
    assert b.id in IdsOf(b) && c.id in IdsOf(c);
    hide IdsOf, Ids, Around;
    assert b.id in Ids(sub.blocks) && c.id in Ids(Around(blocks, i));
    assert Ids(blocks)[b.id] <= 1;
  }

  lemma {:induction false} NoAttachmentError(sub: Block, edges: seq<Edge>)
    requires sub.SubGraph?
    ensures AttachmentError(sub, edges) == Done <==> forall e :: e in edges ==> EndError(sub, e) == Done
  {
    if edges != [] {
      var front := edges[..|edges| - 1];
      NoAttachmentError(sub, front);
      assert edges == front + [edges[|edges| - 1]];
    }
  }

  /** A rewired end leads to the same leaf port as the end at the sub-graph did. */
  lemma RewiredEndResolves(g: Topology, sub: Block, i: nat, dir: Direction, id: Id, def: PortDef)
    requires WellFormed(g) && i < |g.blocks| && g.blocks[i] == sub && sub.SubGraph?
    requires ExportsPresent(sub.blocks, sub.exports)
    requires FindBlock(g.blocks, id).Some? && (id == sub.id ==> ResolveEnd(sub, dir, def).Inner?)
    ensures var (id', def') := RewiredEnd(sub, dir, id, def);
            var blocks := Around(g.blocks, i) + sub.blocks;
            FindBlock(blocks, id').Some? && Resolve(blocks, dir, id', def') == Resolve(g.blocks, dir, id, def)
  {
    UngroupedLookups(g, sub, i);
    var b := FindBlock(g.blocks, id).value;
    assert b in g.blocks;
    if id == sub.id {
      assert b == sub;
      var x := FindExport(sub.exports, dir, DefinedPortName(Ports(sub, dir), def).value).value;
      ResolveExported(g.blocks, sub, dir, def, x);
      var inner := FindBlock(sub.blocks, x.block).value;
      assert inner in sub.blocks;
      SameFind(Around(g.blocks, i) + sub.blocks, sub.blocks, dir, x.block, ByName(x.internal));
    } else {
      SameFind(Around(g.blocks, i) + sub.blocks, g.blocks, dir, id, def);
    }
  }

  lemma SameFind(a: seq<Block>, b: seq<Block>, dir: Direction, id: Id, def: PortDef)
    requires FindBlock(a, id) == FindBlock(b, id)
    ensures Resolve(a, dir, id, def) == Resolve(b, dir, id, def)
  {
  }

  lemma ResolveExported(blocks: seq<Block>, sub: Block, dir: Direction, def: PortDef, x: Export)
    requires FindBlock(blocks, sub.id) == Some(sub) && sub.SubGraph? && ExportsPresent(sub.blocks, sub.exports)
    requires DefinedPortName(Ports(sub, dir), def).Some?
    requires FindExport(sub.exports, dir, DefinedPortName(Ports(sub, dir), def).value) == Some(x)
    ensures Resolve(blocks, dir, sub.id, def) == Resolve(sub.blocks, dir, x.block, ByName(x.internal))
    ensures FindBlock(sub.blocks, x.block).Some?
  {
    var k :| 0 <= k < |sub.exports| && sub.exports[k] == x;
    assert FindBlock(sub.blocks, sub.exports[k].block).Some?;
  }

  lemma EndsResolve(sub: Block, e: Edge)
    requires sub.SubGraph? && EndError(sub, e) == Done
    ensures e.src == sub.id ==> ResolveEnd(sub, Output, e.srcPort).Inner?
    ensures e.dst == sub.id ==> ResolveEnd(sub, Input, e.dstPort).Inner?
  {
  }

  lemma RewiredLink(g: Topology, sub: Block, i: nat, e: Edge)
    requires WellFormed(g) && i < |g.blocks| && g.blocks[i] == sub && sub.SubGraph?
    requires ExportsPresent(sub.blocks, sub.exports)
    requires e in g.edges && EndError(sub, e) == Done
    ensures var blocks := Around(g.blocks, i) + sub.blocks;
            EdgeInside(blocks, RewiredEdge(sub, e)) && LinkOf(blocks, RewiredEdge(sub, e)) == LinkOf(g.blocks, e)
  {
    hide Resolve, FindBlock, ResolveEnd, RewiredEnd, Around, ExportsPresent;
    assert EdgeInside(g.blocks, e);
    hide WellFormed;
    EndsResolve(sub, e);
    RewiredEndResolves(g, sub, i, Output, e.src, e.srcPort);
    RewiredEndResolves(g, sub, i, Input, e.dst, e.dstPort);
  }

  lemma InnerLink(g: Topology, sub: Block, i: nat, e: Edge)
    requires WellFormed(g) && i < |g.blocks| && g.blocks[i] == sub && sub.SubGraph? && e in sub.edges
    ensures var blocks := Around(g.blocks, i) + sub.blocks;
            EdgeInside(blocks, e) && LinkOf(blocks, e) == LinkOf(sub.blocks, e)
  {
    assert Sound(sub) && EdgeInside(sub.blocks, e);
    UngroupedLookups(g, sub, i);
    hide WellFormed, Sound, Ids, Once, Around, Resolve;
    assert FindBlock(sub.blocks, e.src).value in sub.blocks && FindBlock(sub.blocks, e.dst).value in sub.blocks;
    hide FindBlock;
    SameFind(Around(g.blocks, i) + sub.blocks, sub.blocks, Output, e.src, e.srcPort);
    SameFind(Around(g.blocks, i) + sub.blocks, sub.blocks, Input, e.dst, e.dstPort);
  }

  /** An inner edge can only repeat another inner edge: outer edges join other blocks. */
  lemma OuterNeverRepeated(g: Topology, sub: Block, i: nat)
    requires WellFormed(g) && i < |g.blocks| && g.blocks[i] == sub && sub.SubGraph?
    ensures NoRepeats(g.edges, sub.edges) <==> NoRepeats([], sub.edges)
  {
    forall k, e | 0 <= k < |g.edges| && e in sub.edges ensures !SameConnection(g.edges[k], e) {
      assert EdgeInside(g.blocks, g.edges[k]);
      assert Sound(sub) && EdgeInside(sub.blocks, e);
      UngroupedLookups(g, sub, i);
      assert FindBlock(sub.blocks, e.src).value in sub.blocks;
    }
    forall k | 0 <= k < |sub.edges|
      ensures ContainsEdge(g.edges + sub.edges[..k], sub.edges[k]) <==> ContainsEdge([] + sub.edges[..k], sub.edges[k])
    {
      var e := sub.edges[k];
      assert e in sub.edges;
      if ContainsEdge(g.edges + sub.edges[..k], e) {
        var j :| 0 <= j < |g.edges + sub.edges[..k]| && SameConnection((g.edges + sub.edges[..k])[j], e);
        assert j >= |g.edges|;
        assert SameConnection(([] + sub.edges[..k])[j - |g.edges|], e);
      }
      if ContainsEdge([] + sub.edges[..k], e) {
        var j :| 0 <= j < |[] + sub.edges[..k]| && SameConnection(([] + sub.edges[..k])[j], e);
        assert SameConnection((g.edges + sub.edges[..k])[|g.edges| + j], e);
      }
    }
  }

  lemma UngroupKeepsLeaves(g: Topology, sub: Block)
    requires WellFormed(g) && sub in g.blocks && Ungroup(g, sub).0 == Done
    ensures Leaves(Ungroup(g, sub).1.blocks) == Leaves(g.blocks)
  {
    var i :| 0 <= i < |g.blocks| && g.blocks[i] == sub;
    ContentsReplaceSubGraph(g, sub, i);
    ContentsSums(g.blocks, sub, i);
  }

  /** The inner edges that `addEdge` lets through. */
  function Adopted(g: Topology, sub: Block): (r: seq<Edge>)
    requires sub.SubGraph?
    ensures AddEdges(g.edges, sub.edges) == g.edges + r
  {
    AddEdgesKeeps(g.edges, sub.edges);
    AddEdges(g.edges, sub.edges)[|g.edges|..]
  }

  lemma AdoptedLinks(g: Topology, sub: Block, i: nat)
    requires WellFormed(g) && i < |g.blocks| && g.blocks[i] == sub && sub.SubGraph?
    ensures forall e :: e in Adopted(g, sub) ==> e in sub.edges
    ensures NoRepeats([], sub.edges) ==> Adopted(g, sub) == sub.edges
    ensures |Adopted(g, sub)| == |sub.edges| ==> NoRepeats([], sub.edges)
  {
    OuterNeverRepeated(g, sub, i);
    AddEdgesExact(g.edges, sub.edges);
    assert (g.edges + sub.edges)[|g.edges|..] == sub.edges;
  }

  lemma RewiredLinks(g: Topology, sub: Block, i: nat)
    requires WellFormed(g) && i < |g.blocks| && g.blocks[i] == sub && Ungroup(g, sub).0 == Done
    ensures var blocks := Around(g.blocks, i) + sub.blocks;
            EdgesInside(blocks, Rewired(sub, g.edges))
              && Links(blocks, Rewired(sub, g.edges)) == Links(g.blocks, g.edges)
  {
    var blocks, rewired := Around(g.blocks, i) + sub.blocks, Rewired(sub, g.edges);
    NoAttachmentError(sub, g.edges);
    forall k | 0 <= k < |g.edges|
      ensures EdgeInside(blocks, rewired[k]) && LinkOf(blocks, rewired[k]) == LinkOf(g.blocks, g.edges[k])
    {
      assert g.edges[k] in g.edges;
      RewiredLink(g, sub, i, g.edges[k]);
    }
    LinksPointwise(blocks, rewired, g.blocks, g.edges);
  }

  lemma AdoptedKeepLinks(g: Topology, sub: Block, i: nat)
    requires WellFormed(g) && i < |g.blocks| && g.blocks[i] == sub && sub.SubGraph?
    ensures Links(Around(g.blocks, i) + sub.blocks, sub.edges) == Links(sub.blocks, sub.edges)
  {
    var blocks := Around(g.blocks, i) + sub.blocks;
    forall k | 0 <= k < |sub.edges| ensures LinkOf(blocks, sub.edges[k]) == LinkOf(sub.blocks, sub.edges[k]) {
      assert sub.edges[k] in sub.edges;
      InnerLink(g, sub, i, sub.edges[k]);
    }
    LinksPointwise(blocks, sub.edges, sub.blocks, sub.edges);
  }

  lemma UngroupedShape(g: Topology, sub: Block, i: nat)
    requires WellFormed(g) && i < |g.blocks| && g.blocks[i] == sub && Ungroup(g, sub).0 == Done
    ensures Ungroup(g, sub).1 == Topology(Around(g.blocks, i) + sub.blocks, Rewired(sub, g.edges) + Adopted(g, sub))
  {
    ContentsReplaceSubGraph(g, sub, i);
  }

  lemma UngroupedMeaning(g: Topology, sub: Block, i: nat)
    requires WellFormed(g) && i < |g.blocks| && g.blocks[i] == sub && Ungroup(g, sub).0 == Done
    ensures var blocks := Around(g.blocks, i) + sub.blocks;
            var rest := Links(g.blocks, g.edges) + InnerLinks(blocks);
            && Meaning(g) == Links(sub.blocks, sub.edges) + rest
            && Meaning(Ungroup(g, sub).1) == Links(blocks, Adopted(g, sub)) + rest
  {
    UngroupedShape(g, sub, i);
    ContentsSums(g.blocks, sub, i);
    RewiredLinks(g, sub, i);
    LinksAppend(Around(g.blocks, i) + sub.blocks, Rewired(sub, g.edges), Adopted(g, sub));
  }

  /** Ungrouping keeps every resolved connection exactly when no inner edge repeats another. */
  lemma UngroupKeepsMeaning(g: Topology, sub: Block)
    requires WellFormed(g) && sub in g.blocks && Ungroup(g, sub).0 == Done
    ensures Meaning(Ungroup(g, sub).1) == Meaning(g) <==> NoRepeats([], sub.edges)
  {
    var i :| 0 <= i < |g.blocks| && g.blocks[i] == sub;
    var blocks, adopted := Around(g.blocks, i) + sub.blocks, Adopted(g, sub);
    UngroupedMeaning(g, sub, i);
    AdoptedLinks(g, sub, i);
    AdoptedKeepLinks(g, sub, i);
    if Meaning(Ungroup(g, sub).1) == Meaning(g) {
      Cancel(Links(blocks, adopted), Links(sub.blocks, sub.edges), Links(g.blocks, g.edges) + InnerLinks(blocks));
      LinksSize(blocks, adopted);
      LinksSize(sub.blocks, sub.edges);
    }
  }

  lemma UngroupKeepsWellFormed(g: Topology, sub: Block)
    requires WellFormed(g) && sub in g.blocks && Ungroup(g, sub).0 == Done
    ensures WellFormed(Ungroup(g, sub).1)
  {
    var i :| 0 <= i < |g.blocks| && g.blocks[i] == sub;
    var blocks := Around(g.blocks, i) + sub.blocks;
    UngroupedShape(g, sub, i);
    UngroupedLookups(g, sub, i);
    RewiredLinks(g, sub, i);
    AdoptedLinks(g, sub, i);
    forall e | e in sub.edges ensures EdgeInside(blocks, e) { InnerLink(g, sub, i, e); }
    assert Sound(sub);
    assert forall b :: b in blocks ==> b in g.blocks || b in sub.blocks;
  }

  /** An ungrouping that fails has changed nothing. */
  lemma UngroupFailureIsClean(g: Topology, sub: Block)
    ensures Ungroup(g, sub).0 != Done ==> Ungroup(g, sub).1 == g
  {
  }
}
