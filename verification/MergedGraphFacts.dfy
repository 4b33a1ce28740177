/** More about flattened graphs: they always admit a signal assignment, every leaf input is fed exactly
    once, and what the port maps leave out when a feedback merge has a tap. Also the builder itself. */
module MergedGraphFacts {
  import opened Options
  import opened BlockMerging
  import opened MergedGraphs

  // --- a graph only talks about its own blocks --------------------------------------------------------

  predicate Within(p: PortRef, base: nat, n: nat) {
    base <= p.block < base + n
  }

  ghost predicate PortsWithin<S>(g: Flat<S>, base: nat) {
    var n := |g.blocks|;
    && (forall p :: p in g.ins ==> Within(p, base, n))
    && (forall p :: p in g.outs ==> Within(p, base, n))
    && (forall w :: w in g.wires ==> Within(w.src, base, n) && Within(w.dst, base, n))
  }

  lemma {:induction false} FlattenWithin<S>(t: Tree<S>, base: nat)
    requires WellTyped(t)
    ensures PortsWithin(Flatten(t, base), base)
  {
    hide Join, JoinLoop, Flatten, PortsWithin;
    match t
    case Leaf(kind) => LeafWithin(kind, base);
    case Merge(left, outId, right, inId) =>
      FlattenMerge(t, base);
      FlattenWithin(left, base);
      FlattenWithin(right, base + Size(left));
      JoinWithin(Flatten(left, base), outId, Flatten(right, base + Size(left)), inId, base);
    case Feedback(forward, feedback, monitor, loopIn, tap) =>
      FlattenFeedback(t, base);
      var middle := base + Size(forward);
      FlattenWithin(forward, base);
      FlattenWithin(feedback, middle);
      if monitor.Some? { FlattenWithin(monitor.value, middle + Size(feedback)); }
      LoopWithin(Flatten(forward, base), Flatten(feedback, middle), FlattenMonitor(monitor, middle + Size(feedback)),
                 loopIn, tap, base);
  }

  lemma LeafWithin<S>(kind: Kind<S>, base: nat)
    requires WellTyped(Leaf(kind))
    ensures PortsWithin(Flatten(Leaf(kind), base), base)
  {
  }

  lemma RemovedFrom<T>(s: seq<T>, i: nat)
    requires i < |s|
    ensures forall x :: x in RemoveAt(s, i) ==> x in s
  {
  }

  lemma JoinWithin<S>(l: Flat<S>, outId: nat, r: Flat<S>, inId: nat, base: nat)
    requires outId < |l.outs| && inId < |r.ins| && PortsWithin(l, base) && PortsWithin(r, base + |l.blocks|)
    ensures PortsWithin(Join(l, outId, r, inId), base)
  {
    assert l.outs[outId] in l.outs && r.ins[inId] in r.ins;
    RemovedFrom(l.outs, outId);
    RemovedFrom(r.ins, inId);
  }

  lemma LoopWithin<S>(f: Flat<S>, b: Flat<S>, m: Option<Flat<S>>, loopIn: nat, tap: bool, base: nat)
    requires |f.outs| == 1 && |b.ins| == 1 && |b.outs| == 1 && loopIn < |f.ins|
    requires m.Some? ==> |m.value.ins| == 1 && |m.value.outs| == 1
    requires PortsWithin(f, base) && PortsWithin(b, base + |f.blocks|)
    requires (m.Some? ==> PortsWithin(m.value, base + |f.blocks| + |b.blocks|))
    ensures PortsWithin(JoinLoop(f, b, m, loopIn, tap), base)
  {
    assert f.outs[0] in f.outs && b.ins[0] in b.ins && b.outs[0] in b.outs && f.ins[loopIn] in f.ins;
    RemovedFrom(f.ins, loopIn);
    if m.Some? { assert m.value.ins[0] in m.value.ins && m.value.outs[0] in m.value.outs; }
  }

  ghost predicate SameWithin(a: PortRef -> real, b: PortRef -> real, base: nat, n: nat) {
    forall p :: Within(p, base, n) ==> a(p) == b(p)
  }

  lemma SolvesLocally<S>(g: Flat<S>, base: nat, m: Memory<S>, xs: seq<real>, inn: PortRef -> real, out: PortRef -> real,
                         inn': PortRef -> real, out': PortRef -> real)
    requires PortsWithin(g, base) && Solves(g, base, m, xs, inn, out)
    requires SameWithin(inn, inn', base, |g.blocks|) && SameWithin(out, out', base, |g.blocks|)
    ensures Solves(g, base, m, xs, inn', out')
  {
    forall i | 0 <= i < |g.blocks|
      ensures Values(out', PortsOf(base + i, g.blocks[i].nOut))
              == Step(g.blocks[i], m.states[i], Values(inn', PortsOf(base + i, g.blocks[i].nIn)))
    {
      SameValues(out, out', PortsOf(base + i, g.blocks[i].nOut), base, |g.blocks|);
      SameValues(inn, inn', PortsOf(base + i, g.blocks[i].nIn), base, |g.blocks|);
    }
    SameValues(inn, inn', g.ins, base, |g.blocks|);
    forall j | 0 <= j < |g.wires|
      ensures inn'(g.wires[j].dst) == if g.wires[j].kind == FeedbackLoop then m.held[j] else out'(g.wires[j].src)
    {
      assert g.wires[j] in g.wires;
    }
  }

  lemma SameValues(a: PortRef -> real, b: PortRef -> real, ports: seq<PortRef>, base: nat, n: nat)
    requires SameWithin(a, b, base, n) && forall i :: 0 <= i < |ports| ==> Within(ports[i], base, n)
    ensures Values(a, ports) == Values(b, ports)
  {
  }

  /** Two assignments glued together: the first below a block position, the second from there on. */
  function Glue(a: PortRef -> real, b: PortRef -> real, middle: nat): PortRef -> real {
    (p: PortRef) => if p.block < middle then a(p) else b(p)
  }

  lemma GlueSolves<S>(g: Flat<S>, base: nat, m: Memory<S>, xs: seq<real>, inn: PortRef -> real, out: PortRef -> real,
                      inn': PortRef -> real, out': PortRef -> real, middle: nat)
    requires PortsWithin(g, base)
    ensures base + |g.blocks| <= middle && Solves(g, base, m, xs, inn, out)
            ==> Solves(g, base, m, xs, Glue(inn, inn', middle), Glue(out, out', middle))
    ensures middle <= base && Solves(g, base, m, xs, inn', out')
            ==> Solves(g, base, m, xs, Glue(inn, inn', middle), Glue(out, out', middle))
  {
    hide Solves, PortsWithin;
    if base + |g.blocks| <= middle && Solves(g, base, m, xs, inn, out) {
      SolvesLocally(g, base, m, xs, inn, out, Glue(inn, inn', middle), Glue(out, out', middle));
    }
    if middle <= base && Solves(g, base, m, xs, inn', out') {
      SolvesLocally(g, base, m, xs, inn', out', Glue(inn, inn', middle), Glue(out, out', middle));
    }
  }

  /** The flattened graph always admits an assignment, so what it computes is never vacuous. */
  lemma {:induction false} GraphHasSolution<S>(t: Tree<S>, base: nat, st: State<S>, xs: seq<real>)
    returns (inn: PortRef -> real, out: PortRef -> real)
    requires WellTyped(t) && Fits(t, st) && |xs| == NIn(t)
    ensures Solves(Flatten(t, base), base, FlatMemory(t, st), xs, inn, out)
    decreases t, 1
  {
    match t
    case Leaf(kind) =>
      inn := (p: PortRef) => if p.port < |xs| then xs[p.port] else 0.0;
      var ys := Step(kind, st.s, xs);
      out := (p: PortRef) => if p.port < |ys| then ys[p.port] else 0.0;
      assert Values(inn, PortsOf(base, kind.nIn)) == xs && Values(out, PortsOf(base, kind.nOut)) == ys;
      assert base + 0 == base;
    case Merge(_, _, _, _) => inn, out := MergeHasSolution(t, base, st, xs);
    case Feedback(_, _, monitor, _, _) => inn, out := FeedbackHasSolution(t, base, st, xs);
  }

  lemma {:induction false} MergeHasSolution<S>(t: Tree<S>, base: nat, st: State<S>, xs: seq<real>)
    returns (inn: PortRef -> real, out: PortRef -> real)
    requires WellTyped(t) && Fits(t, st) && |xs| == NIn(t) && t.Merge?
    ensures Solves(Flatten(t, base), base, FlatMemory(t, st), xs, inn, out)
    decreases t, 0
  {
    hide Flatten, FlatMemory, Solves, PortsWithin, Join, JoinMemory, PortsOf, InsertAt, RemoveAt;
    PortsCounted(t.left);
    PortsCounted(t.right);
    FlattenMerge(t, base);
    MemoryMerge(t, st);
    var n, middle := NIn(t.left), base + Size(t.left);
    var l, r := Flatten(t.left, base), Flatten(t.right, middle);
    var lm, rm := FlatMemory(t.left, st.l), FlatMemory(t.right, st.r);
    var i1, o1 := GraphHasSolution(t.left, base, st.l, xs[..n]);
    var ys := InsertAt(xs[n..], t.inId, o1(l.outs[t.outId]));
    var i2, o2 := GraphHasSolution(t.right, middle, st.r, ys);
    FlattenWithin(t.left, base);
    FlattenWithin(t.right, middle);
    inn, out := Glue(i1, i2, middle), Glue(o1, o2, middle);
    GlueSolves(l, base, lm, xs[..n], i1, o1, i2, o2, middle);
    GlueSolves(r, middle, rm, ys, i1, o1, i2, o2, middle);
    OutWithin(l, base, t.outId);
    JoinSolves(l, t.outId, r, t.inId, base, lm, rm, xs, inn, out);
  }

  lemma OutWithin<S>(g: Flat<S>, base: nat, i: nat)
    requires PortsWithin(g, base) && i < |g.outs|
    ensures Within(g.outs[i], base, |g.blocks|)
  {
    assert g.outs[i] in g.outs;
  }

  lemma {:induction false} FeedbackHasSolution<S>(t: Tree<S>, base: nat, st: State<S>, xs: seq<real>)
    returns (inn: PortRef -> real, out: PortRef -> real)
    requires WellTyped(t) && Fits(t, st) && |xs| == NIn(t) && t.Feedback?
    ensures Solves(Flatten(t, base), base, FlatMemory(t, st), xs, inn, out)
    decreases t, 0
  {
    hide Flatten, FlatMemory, Solves, PortsWithin, JoinLoop, JoinLoopMemory, PortsOf, InsertAt, RemoveAt;
    if t.monitor.None? {
      FlattenFeedback(t, base);
      MemoryFeedback(t, st);
      var middle := base + Size(t.forward);
      var f, b := Flatten(t.forward, base), Flatten(t.feedback, middle);
      var fm, bm := FlatMemory(t.forward, st.f), FlatMemory(t.feedback, st.b);
      var fed := InsertAt(xs, t.loopIn, st.held);
      FlattenWithin(t.forward, base);
      FlattenWithin(t.feedback, middle);
      OutWithin(f, base, 0);
      var i1, o1 := GraphHasSolution(t.forward, base, st.f, fed);
      var i2, o2 := GraphHasSolution(t.feedback, middle, st.b, [o1(f.outs[0])]);
      inn, out := Glue(i1, i2, middle), Glue(o1, o2, middle);
      GlueSolves(f, base, fm, fed, i1, o1, i2, o2, middle);
      GlueSolves(b, middle, bm, [o1(f.outs[0])], i1, o1, i2, o2, middle);
      LoopSolves(f, b, t.loopIn, t.tap, base, fm, bm, st.held, xs, inn, out);
    } else {
      var f := Flatten(t.forward, base);
      var i1, o1 := GraphHasSolution(t.forward, base, st.f, InsertAt(xs, t.loopIn, st.held));
      var last := base + Size(t.forward) + Size(t.feedback);
      var m := Flatten(t.monitor.value, last);
      var i3, o3 := GraphHasSolution(t.monitor.value, last, st.m.value, [o1(f.outs[0])]);
      var i2, o2 := GraphHasSolution(t.feedback, base + Size(t.forward), st.b, [o3(m.outs[0])]);
      inn, out := MonitoredSolution(t, base, st, xs, i1, o1, i2, o2, i3, o3);
    }
  }

  lemma MonitoredSolution<S>(t: Tree<S>, base: nat, st: State<S>, xs: seq<real>, i1: PortRef -> real,
                             o1: PortRef -> real, i2: PortRef -> real, o2: PortRef -> real, i3: PortRef -> real,
                             o3: PortRef -> real)
    returns (inn: PortRef -> real, out: PortRef -> real)
    requires WellTyped(t) && Fits(t, st) && |xs| == NIn(t) && t.Feedback? && t.monitor.Some?
    requires Solves(Flatten(t.forward, base), base, FlatMemory(t.forward, st.f), InsertAt(xs, t.loopIn, st.held), i1,
                    o1)
    requires var last := base + Size(t.forward) + Size(t.feedback);
             var m := Flatten(t.monitor.value, last);
             && Solves(m, last, FlatMemory(t.monitor.value, st.m.value), [o1(Flatten(t.forward, base).outs[0])], i3, o3)
             && Solves(Flatten(t.feedback, base + Size(t.forward)), base + Size(t.forward),
                       FlatMemory(t.feedback, st.b), [o3(m.outs[0])], i2, o2)
    ensures Solves(Flatten(t, base), base, FlatMemory(t, st), xs, inn, out)
  {
    hide Flatten, FlatMemory, Solves, PortsWithin, JoinLoop, JoinLoopMemory, PortsOf, InsertAt, RemoveAt;
    FlattenFeedback(t, base);
    MemoryFeedback(t, st);
    var middle := base + Size(t.forward);
    var last := middle + Size(t.feedback);
    var f, b, m := Flatten(t.forward, base), Flatten(t.feedback, middle), Flatten(t.monitor.value, last);
    var fm, bm, mm := FlatMemory(t.forward, st.f), FlatMemory(t.feedback, st.b),
                      FlatMemory(t.monitor.value, st.m.value);
    var fed, heard, seen := InsertAt(xs, t.loopIn, st.held), [o1(f.outs[0])], [o3(m.outs[0])];
    FlattenWithin(t.forward, base);
    FlattenWithin(t.feedback, middle);
    FlattenWithin(t.monitor.value, last);
    OutWithin(f, base, 0);
    OutWithin(m, last, 0);
    var i23, o23 := Glue(i2, i3, last), Glue(o2, o3, last);
    inn, out := Glue(i1, i23, middle), Glue(o1, o23, middle);
    GlueSolves(b, middle, bm, seen, i2, o2, i3, o3, last);
    GlueSolves(m, last, mm, heard, i2, o2, i3, o3, last);
    GlueSolves(f, base, fm, fed, i1, o1, i23, o23, middle);
    GlueSolves(b, middle, bm, seen, i1, o1, i23, o23, middle);
    GlueSolves(m, last, mm, heard, i1, o1, i23, o23, middle);
    MonitoredLoopSolves(f, b, m, t.loopIn, t.tap, base, fm, bm, mm, st.held, xs, inn, out);
  }

  // --- every leaf input is fed exactly once -----------------------------------------------------------

  function Targets(wires: seq<Wire>): multiset<PortRef> {
    if wires == [] then multiset{} else multiset{wires[0].dst} + Targets(wires[1..])
  }

  /** Every input port of every block. */
  function LeafInputs<S>(blocks: seq<Kind<S>>, base: nat): multiset<PortRef> {
    if blocks == [] then multiset{} else InputsAt(base, blocks[0].nIn) + LeafInputs(blocks[1..], base + 1)
  }

  function InputsAt(block: nat, n: nat): multiset<PortRef> {
    multiset(PortsOf(block, n))
  }

  lemma {:induction false} TargetsAppend(a: seq<Wire>, b: seq<Wire>)
    ensures Targets(a + b) == Targets(a) + Targets(b)
  {
    if a == [] {
      assert a + b == b;
    } else {
      assert (a + b)[1..] == a[1..] + b;
      TargetsAppend(a[1..], b);
    }
  }

  lemma {:induction false} LeafInputsAppend<S>(a: seq<Kind<S>>, b: seq<Kind<S>>, base: nat)
    ensures LeafInputs(a + b, base) == LeafInputs(a, base) + LeafInputs(b, base + |a|)
  {
    hide InputsAt;
    if a == [] {
      assert a + b == b;
    } else {
      assert (a + b)[1..] == a[1..] + b;
      assert base + 1 + |a[1..]| == base + |a|;
      LeafInputsAppend(a[1..], b, base + 1);
    }
  }

  lemma RemovedMultiset<T>(s: seq<T>, i: nat)
    requires i < |s|
    ensures multiset(RemoveAt(s, i)) + multiset{s[i]} == multiset(s)
  {
    assert s == s[..i] + [s[i]] + s[i + 1..];
  }

  /** Fed from outside or by a wire. */
  function Fed<S>(g: Flat<S>): multiset<PortRef> {
    multiset(g.ins) + Targets(g.wires)
  }

  lemma JoinFed<S>(l: Flat<S>, outId: nat, r: Flat<S>, inId: nat)
    requires outId < |l.outs| && inId < |r.ins|
    ensures Fed(Join(l, outId, r, inId)) == Fed(l) + Fed(r)
  {
    var w := Wire(l.outs[outId], r.ins[inId], Merged);
    TargetsAppend(l.wires + r.wires, [w]);
    TargetsAppend(l.wires, r.wires);
    assert Targets([w]) == multiset{w.dst} + Targets([w][1..]);
    RemovedMultiset(r.ins, inId);
  }

  lemma LoopFed<S>(f: Flat<S>, b: Flat<S>, m: Option<Flat<S>>, loopIn: nat, tap: bool)
    requires |f.outs| == 1 && |b.ins| == 1 && |b.outs| == 1 && loopIn < |f.ins|
    requires m.Some? ==> |m.value.ins| == 1 && |m.value.outs| == 1
    ensures Fed(JoinLoop(f, b, m, loopIn, tap)) == Fed(f) + Fed(b) + (if m.None? then multiset{} else Fed(m.value))
  {
    hide Targets, RemoveAt;
    var back := Wire(b.outs[0], f.ins[loopIn], FeedbackLoop);
    var rest := multiset(RemoveAt(f.ins, loopIn));
    RemovedMultiset(f.ins, loopIn);
    assert multiset(b.ins) == multiset{b.ins[0]} by { assert b.ins == [b.ins[0]]; }
    if m.None? {
      var ahead := Wire(f.outs[0], b.ins[0], ForwardToFeedback);
      TargetsAppend(f.wires, b.wires);
      TargetsAppend(f.wires + b.wires, [ahead, back]);
      ThreeTargets(ahead, ahead, back);
      LoopTotal(rest, Targets(f.wires), Targets(b.wires), multiset{b.ins[0]}, multiset{f.ins[loopIn]});
    } else {
      var toM, toB := Wire(f.outs[0], m.value.ins[0], ToMonitor), Wire(m.value.outs[0], b.ins[0], MonitorToFeedback);
      assert multiset(m.value.ins) == multiset{m.value.ins[0]} by { assert m.value.ins == [m.value.ins[0]]; }
      MonitoredWires(f.wires, b.wires, m.value.wires, [toM, toB, back]);
      ThreeTargets(toM, toB, back);
      MonitoredTotal(rest, Targets(f.wires), Targets(b.wires), Targets(m.value.wires), multiset{b.ins[0]},
                     multiset{f.ins[loopIn]}, multiset{m.value.ins[0]});
    }
  }

  lemma LoopTotal<T>(rest: multiset<T>, f: multiset<T>, b: multiset<T>, x: multiset<T>, y: multiset<T>)
    ensures rest + (f + b + (x + y)) == (rest + y + f) + (x + b) + multiset{}
  {
  }

  lemma MonitoredTotal<T>(rest: multiset<T>, f: multiset<T>, b: multiset<T>, m: multiset<T>, x: multiset<T>,
                          y: multiset<T>, z: multiset<T>)
    ensures rest + (f + b + m + (z + x + y)) == (rest + y + f) + (x + b) + (z + m)
  {
  }

  lemma MonitoredWires(a: seq<Wire>, b: seq<Wire>, c: seq<Wire>, tail: seq<Wire>)
    ensures Targets(a + b + c + tail) == Targets(a) + Targets(b) + Targets(c) + Targets(tail)
  {
    TargetsAppend(a, b);
    TargetsAppend(a + b, c);
    TargetsAppend(a + b + c, tail);
  }

  lemma ThreeTargets(u: Wire, v: Wire, w: Wire)
    ensures Targets([u, v, w]) == multiset{u.dst} + multiset{v.dst} + multiset{w.dst}
    ensures Targets([v, w]) == multiset{v.dst} + multiset{w.dst}
  {
    assert [u, v, w][1..] == [v, w] && [v, w][1..] == [w] && [w][1..] == [];
    assert Targets([w]) == multiset{w.dst} + Targets([w][1..]);
  }

  /** The outer inputs and the targets of the wires are together all input ports of all leaves: none is
      fed twice, none is left open, and so no wire can be refused as a duplicate. */
  lemma {:induction false} EveryInputFedOnce<S>(t: Tree<S>, base: nat)
    requires WellTyped(t)
    ensures Fed(Flatten(t, base)) == LeafInputs(Flatten(t, base).blocks, base)
  {
    hide Flatten, Fed, LeafInputs;
    match t
    case Leaf(kind) => LeafFed(kind, base);
    case Merge(left, _, right, _) =>
      EveryInputFedOnce(left, base);
      EveryInputFedOnce(right, base + Size(left));
      MergeFed(t, base);
    case Feedback(forward, feedback, monitor, _, _) =>
      EveryInputFedOnce(forward, base);
      EveryInputFedOnce(feedback, base + Size(forward));
      if monitor.Some? { EveryInputFedOnce(monitor.value, base + Size(forward) + Size(feedback)); }
      FeedbackFed(t, base);
  }

  lemma MergeFed<S>(t: Tree<S>, base: nat)
    requires WellTyped(t) && t.Merge?
    requires var l, r := Flatten(t.left, base), Flatten(t.right, base + Size(t.left));
             Fed(l) == LeafInputs(l.blocks, base) && Fed(r) == LeafInputs(r.blocks, base + Size(t.left))
    ensures Fed(Flatten(t, base)) == LeafInputs(Flatten(t, base).blocks, base)
  {
    hide Flatten, Join, PortsOf, Fed, LeafInputs;
    FlattenMerge(t, base);
    var l, r := Flatten(t.left, base), Flatten(t.right, base + Size(t.left));
    JoinFed(l, t.outId, r, t.inId);
    JoinBlocks(l, t.outId, r, t.inId, base);
  }

  lemma FeedbackFed<S>(t: Tree<S>, base: nat)
    requires WellTyped(t) && t.Feedback?
    requires var middle := base + Size(t.forward);
             var f, b, m := Flatten(t.forward, base), Flatten(t.feedback, middle),
                            FlattenMonitor(t.monitor, middle + Size(t.feedback));
             Fed(f) == LeafInputs(f.blocks, base) && Fed(b) == LeafInputs(b.blocks, middle)
             && (m.Some? ==> Fed(m.value) == LeafInputs(m.value.blocks, middle + Size(t.feedback)))
    ensures Fed(Flatten(t, base)) == LeafInputs(Flatten(t, base).blocks, base)
  {
    hide Flatten, JoinLoop, PortsOf, Fed, LeafInputs, FlattenMonitor;
    FlattenFeedback(t, base);
    var middle := base + Size(t.forward);
    var f, b, m := Flatten(t.forward, base), Flatten(t.feedback, middle),
                   FlattenMonitor(t.monitor, middle + Size(t.feedback));
    LoopFed(f, b, m, t.loopIn, t.tap);
    LoopBlocks(f, b, m, t.loopIn, t.tap, base);
  }

  lemma LeafFed<S>(kind: Kind<S>, base: nat)
    ensures Fed(Flatten(Leaf(kind), base)) == LeafInputs(Flatten(Leaf(kind), base).blocks, base)
  {
    assert [kind][1..] == [];
    assert LeafInputs([kind], base) == InputsAt(base, kind.nIn) + LeafInputs([kind][1..], base + 1);
  }

  lemma JoinBlocks<S>(l: Flat<S>, outId: nat, r: Flat<S>, inId: nat, base: nat)
    requires outId < |l.outs| && inId < |r.ins|
    ensures LeafInputs(Join(l, outId, r, inId).blocks, base)
            == LeafInputs(l.blocks, base) + LeafInputs(r.blocks, base + |l.blocks|)
  {
    LeafInputsAppend(l.blocks, r.blocks, base);
  }

  lemma LoopBlocks<S>(f: Flat<S>, b: Flat<S>, m: Option<Flat<S>>, loopIn: nat, tap: bool, base: nat)
    requires |f.outs| == 1 && |b.ins| == 1 && |b.outs| == 1 && loopIn < |f.ins|
    requires m.Some? ==> |m.value.ins| == 1 && |m.value.outs| == 1
    ensures LeafInputs(JoinLoop(f, b, m, loopIn, tap).blocks, base)
         == LeafInputs(f.blocks, base) + LeafInputs(b.blocks, base + |f.blocks|)
            + (if m.None? then multiset{} else LeafInputs(m.value.blocks, base + |f.blocks| + |b.blocks|))
  {
    hide PortsOf, LeafInputs;
    LeafInputsAppend(f.blocks, b.blocks, base);
    if m.Some? {
      LeafInputsAppend(f.blocks + b.blocks, m.value.blocks, base);
      assert base + |f.blocks + b.blocks| == base + |f.blocks| + |b.blocks|;
    }
  }

  // --- taps -------------------------------------------------------------------------------------------

  /** What the builder makes of any nesting, tapped or not: a tapped feedback merge builds the graph of one
      without a tap, and `None` stands for reading past the end of a port map. */
  function Built<S>(t: Tree<S>, base: nat): (g: Option<Flat<S>>)
    requires WellTyped(t)
    ensures g.Some? ==> |g.value.ins| == NIn(t) && |g.value.outs| <= NOut(t)
  {
    match t
    case Leaf(kind) => Some(Flat([kind], [], PortsOf(base, kind.nOut), PortsOf(base, kind.nIn)))
    case Merge(left, outId, right, inId) =>
      JoinIfMapped(Built(left, base), outId, Built(right, base + Size(left)), inId)
    case Feedback(forward, feedback, monitor, loopIn, _) =>
      var middle := base + Size(forward);
      var m := if monitor.Some? then Built(monitor.value, middle + Size(feedback)) else None;
      if monitor.Some? && m.None? then None
      else JoinLoopIfMapped(Built(forward, base), Built(feedback, middle), m, loopIn)
  }

  function JoinIfMapped<S>(l: Option<Flat<S>>, outId: nat, r: Option<Flat<S>>, inId: nat): Option<Flat<S>> {
    if l.Some? && r.Some? && outId < |l.value.outs| && inId < |r.value.ins| then
      Some(Join(l.value, outId, r.value, inId))
    else None
  }

  function JoinLoopIfMapped<S>(f: Option<Flat<S>>, b: Option<Flat<S>>, m: Option<Flat<S>>,
                               loopIn: nat): Option<Flat<S>> {
    if f.Some? && b.Some? && |f.value.outs| == 1 && |b.value.ins| == 1 && |b.value.outs| == 1 && loopIn < |f.value.ins|
       && (m.Some? ==> |m.value.ins| == 1 && |m.value.outs| == 1)
    then Some(JoinLoop(f.value, b.value, m, loopIn, false))
    else None
  }

  /** The output map covers the declared outputs exactly when no feedback merge anywhere in the nesting has
      a tap; then the graph is the flattened one. */
  lemma OutputMapMissesTap<S>(t: Tree<S>, base: nat)
    requires WellTyped(t)
    ensures Built(t, base).Some? && |Built(t, base).value.outs| == NOut(t) <==> TapFree(t)
    ensures TapFree(t) ==> Built(t, base) == Some(Flatten(t, base))
  {
    hide Built, Flatten;
    MissesTaps(t, base);
  }

  /** The claim for one tree. */
  ghost predicate MissesTap<S>(t: Tree<S>, base: nat)
    requires WellTyped(t)
  {
    && (Built(t, base).Some? && |Built(t, base).value.outs| == NOut(t) <==> TapFree(t))
    && (TapFree(t) ==> Built(t, base) == Some(Flatten(t, base)))
  }

  lemma {:induction false} MissesTaps<S>(t: Tree<S>, base: nat)
    requires WellTyped(t)
    ensures MissesTap(t, base)
  {
    hide MissesTap;
    match t
    case Leaf(kind) => LeafMisses(kind, base);
    case Merge(left, _, right, _) =>
      MissesTaps(left, base);
      MissesTaps(right, base + Size(left));
      MergeMisses(t, base);
    case Feedback(forward, feedback, monitor, _, _) =>
      var middle := base + Size(forward);
      MissesTaps(forward, base);
      MissesTaps(feedback, middle);
      if monitor.Some? { MissesTaps(monitor.value, middle + Size(feedback)); }
      FeedbackMisses(t, base);
  }

  lemma LeafMisses<S>(kind: Kind<S>, base: nat)
    ensures MissesTap(Leaf(kind), base)
  {
  }

  lemma BuiltMerge<S>(t: Tree<S>, base: nat)
    requires WellTyped(t) && t.Merge?
    ensures Built(t, base) == JoinIfMapped(Built(t.left, base), t.outId, Built(t.right, base + Size(t.left)), t.inId)
  {
    hide JoinIfMapped;
  }

  lemma MergeMisses<S>(t: Tree<S>, base: nat)
    requires WellTyped(t) && t.Merge? && MissesTap(t.left, base) && MissesTap(t.right, base + Size(t.left))
    ensures MissesTap(t, base)
  {
    hide Built, Flatten, PortsOf;
    BuiltMerge(t, base);
    if TapFree(t) { FlattenMerge(t, base); }
  }

  lemma BuiltFeedback<S>(t: Tree<S>, base: nat)
    requires WellTyped(t) && t.Feedback?
    ensures var middle := base + Size(t.forward);
            var m := if t.monitor.Some? then Built(t.monitor.value, middle + Size(t.feedback)) else None;
            Built(t, base) == if t.monitor.Some? && m.None? then None
                              else JoinLoopIfMapped(Built(t.forward, base), Built(t.feedback, middle), m, t.loopIn)
  {
    hide JoinLoopIfMapped;
  }

  lemma FeedbackMisses<S>(t: Tree<S>, base: nat)
    requires WellTyped(t) && t.Feedback? && MissesTap(t.forward, base) && MissesTap(t.feedback, base + Size(t.forward))
    requires t.monitor.Some? ==> MissesTap(t.monitor.value, base + Size(t.forward) + Size(t.feedback))
    ensures MissesTap(t, base)
  {
    hide Built, Flatten, PortsOf;
    BuiltFeedback(t, base);
    if TapFree(t) { FlattenFeedback(t, base); }
  }

  /** The graph has an output for every one of the fused function's exactly on nestings without a tap. */
  lemma OutputsMatchWithoutTap<S>(t: Tree<S>, base: nat, st: State<S>, xs: seq<real>)
    requires WellTyped(t) && Fits(t, st) && |xs| == NIn(t)
    ensures Built(t, base).Some? && |Built(t, base).value.outs| == |Fused(t, st, xs).1| <==> TapFree(t)
  {
    OutputMapMissesTap(t, base);
    hide Built, Fused;
  }

  // --- the builder ------------------------------------------------------------------------------------

  /** The port lists of the source's loops: all ports but the connected one. */
  method AllBut(ports: seq<PortRef>, skipped: nat) returns (r: seq<PortRef>)
    requires skipped < |ports|
    ensures r == RemoveAt(ports, skipped)
  {
    r := [];
    for i := 0 to |ports|
      invariant r == if i <= skipped then ports[..i] else RemoveAt(ports[..i], skipped)
    {
      if i != skipped { r := r + [ports[i]]; }
    }
    assert ports[..|ports|] == ports;
  }

  /** `addSubBlock` for a merged block: its blocks and wires join those that are there already. */
  method AddSubGraph<S>(blocks: seq<Kind<S>>, wires: seq<Wire>, sub: Flat<S>)
    returns (blocks': seq<Kind<S>>, wires': seq<Wire>)
    ensures blocks' == blocks + sub.blocks && wires' == wires + sub.wires
  {
    blocks', wires' := blocks, wires;
    for i := 0 to |sub.blocks|
      invariant blocks' == blocks + sub.blocks[..i]
    {
      blocks' := blocks' + [sub.blocks[i]];
    }
    for i := 0 to |sub.wires|
      invariant wires' == wires + sub.wires[..i]
    {
      wires' := wires' + [sub.wires[i]];
    }
    assert sub.blocks[..|sub.blocks|] == sub.blocks && sub.wires[..|sub.wires|] == sub.wires;
  }

  /** `graphWithPortMaps`, and for a plain block the ports `addSubBlock` lists for it. Where the original
      would read past the end of a port map there is no graph. */
  method GraphWithPortMaps<S>(t: Tree<S>, base: nat) returns (g: Option<Flat<S>>)
    requires WellTyped(t)
    ensures g == Built(t, base)
    ensures TapFree(t) ==> g == Some(Flatten(t, base))
    decreases t, 1
  {
    OutputMapMissesTap(t, base);
    match t
    case Leaf(kind) =>
      g := Some(Flat([kind], [], PortsOf(base, kind.nOut), PortsOf(base, kind.nIn)));
    case Merge(_, _, _, _) =>
      g := MergeGraph(t, base);
    case Feedback(_, _, _, _, _) =>
      g := FeedbackGraph(t, base);
  }

  method MergeGraph<S>(t: Tree<S>, base: nat) returns (g: Option<Flat<S>>)
    requires WellTyped(t) && t.Merge?
    ensures g == Built(t, base)
    decreases t, 0
  {
    hide Built, Flatten, PortsOf, Join;
    BuiltMerge(t, base);
    var l := GraphWithPortMaps(t.left, base);
    var r := GraphWithPortMaps(t.right, base + Size(t.left));
    if l.None? || r.None? || t.outId >= |l.value.outs| { return None; }
    var joined := Connect(l.value, t.outId, r.value, t.inId);
    g := Some(joined);
  }

  method Connect<S>(l: Flat<S>, outId: nat, r: Flat<S>, inId: nat) returns (g: Flat<S>)
    requires outId < |l.outs| && inId < |r.ins|
    ensures g == Join(l, outId, r, inId)
  {
    var blocks, wires := AddSubGraph([], [], l);
    assert blocks == l.blocks && wires == l.wires;
    blocks, wires := AddSubGraph(blocks, wires, r);
    wires := wires + [Wire(l.outs[outId], r.ins[inId], Merged)];
    var outs := AllBut(l.outs, outId);
    var ins := AllBut(r.ins, inId);
    g := Flat(blocks, wires, outs + r.outs, l.ins + ins);
  }

  method FeedbackGraph<S>(t: Tree<S>, base: nat) returns (g: Option<Flat<S>>)
    requires WellTyped(t) && t.Feedback?
    ensures g == Built(t, base)
    decreases t, 0
  {
    hide Built, Flatten, PortsOf, JoinLoop;
    BuiltFeedback(t, base);
    var f := GraphWithPortMaps(t.forward, base);
    var b := GraphWithPortMaps(t.feedback, base + Size(t.forward));
    var m := None;
    if t.monitor.Some? {
      m := GraphWithPortMaps(t.monitor.value, base + Size(t.forward) + Size(t.feedback));
      if m.None? || m.value.outs == [] { return None; }
    }
    if f.None? || b.None? || f.value.outs == [] || b.value.outs == [] { return None; }
    var closed := CloseLoop(f.value, b.value, m, t.loopIn);
    g := Some(closed);
  }

  method CloseLoop<S>(f: Flat<S>, b: Flat<S>, m: Option<Flat<S>>, loopIn: nat) returns (g: Flat<S>)
    requires |f.outs| == 1 && |b.ins| == 1 && |b.outs| == 1 && loopIn < |f.ins|
    requires m.Some? ==> |m.value.ins| == 1 && |m.value.outs| == 1
    ensures g == JoinLoop(f, b, m, loopIn, false)
  {
    var blocks, wires := AddSubGraph([], [], f);
    assert blocks == f.blocks && wires == f.wires;
    blocks, wires := AddSubGraph(blocks, wires, b);
    if m.Some? {
      blocks, wires := AddSubGraph(blocks, wires, m.value);
      wires := wires + [Wire(f.outs[0], m.value.ins[0], ToMonitor)];
      wires := wires + [Wire(m.value.outs[0], b.ins[0], MonitorToFeedback)];
    } else {
      wires := wires + [Wire(f.outs[0], b.ins[0], ForwardToFeedback)];
    }
    wires := wires + [Wire(b.outs[0], f.ins[loopIn], FeedbackLoop)];
    var ins := AllBut(f.ins, loopIn);
    g := Flat(blocks, wires, f.outs, ins);
  }
}
