/** The flattened graph of a nesting of merges, with the maps from its outer ports to leaf ports, and
    the proof that the graph computes what the fused per-sample function computes. */
module MergedGraphs {
  import opened Options
  import opened BlockMerging

  /** A port of the block at a position of the graph's block list. */
  datatype PortRef = PortRef(block: nat, port: nat)

  datatype WireKind = Merged | ForwardToFeedback | ToMonitor | MonitorToFeedback | FeedbackLoop

  datatype Wire = Wire(src: PortRef, dst: PortRef, kind: WireKind)

  datatype Flat<!S> = Flat(blocks: seq<Kind<S>>, wires: seq<Wire>, outs: seq<PortRef>, ins: seq<PortRef>)

  predicate TapFree<S>(t: Tree<S>) {
    match t
    case Leaf(_) => true
    case Merge(left, _, right, _) => TapFree(left) && TapFree(right)
    case Feedback(forward, feedback, monitor, _, tap) =>
      !tap && TapFree(forward) && TapFree(feedback) && (monitor.Some? ==> TapFree(monitor.value))
  }

  function PortsOf(block: nat, n: nat): (r: seq<PortRef>)
    ensures |r| == n && forall i :: 0 <= i < n ==> r[i] == PortRef(block, i)
  {
    seq(n, i requires 0 <= i < n => PortRef(block, i))
  }

  function Size<S>(t: Tree<S>): nat {
    match t
    case Leaf(_) => 1
    case Merge(left, _, right, _) => Size(left) + Size(right)
    case Feedback(forward, feedback, monitor, _, _) =>
      Size(forward) + Size(feedback) + (if monitor.Some? then Size(monitor.value) else 0)
  }

  function Wires<S>(t: Tree<S>): nat {
    match t
    case Leaf(_) => 0
    case Merge(left, _, right, _) => Wires(left) + Wires(right) + 1
    case Feedback(forward, feedback, monitor, _, _) =>
      Wires(forward) + Wires(feedback) + 2 + (if monitor.Some? then Wires(monitor.value) + 1 else 0)
  }

  /** Two graphs side by side, the left one's output `outId` wired to the right one's input `inId`. */
  function Join<S>(l: Flat<S>, outId: nat, r: Flat<S>, inId: nat): Flat<S>
    requires outId < |l.outs| && inId < |r.ins|
  {
    Flat(l.blocks + r.blocks, l.wires + r.wires + [Wire(l.outs[outId], r.ins[inId], Merged)],
         RemoveAt(l.outs, outId) + r.outs, l.ins + RemoveAt(r.ins, inId))
  }

  /** A forward graph, a feedback graph and the loop wire; what is seen by the feedback graph comes
      straight from the forward graph or through a monitor graph in between. With a tap the output of the
      feedback graph is an outer output too. */
  function JoinLoop<S>(f: Flat<S>, b: Flat<S>, m: Option<Flat<S>>, loopIn: nat, tap: bool): (g: Flat<S>)
    requires |f.outs| == 1 && |b.ins| == 1 && |b.outs| == 1 && loopIn < |f.ins|
    requires m.Some? ==> |m.value.ins| == 1 && |m.value.outs| == 1
    ensures g.outs == if tap then f.outs + b.outs else f.outs
  {
    var outs := if tap then f.outs + b.outs else f.outs;
    var back := Wire(b.outs[0], f.ins[loopIn], FeedbackLoop);
    if m.None? then
      Flat(f.blocks + b.blocks, f.wires + b.wires + [Wire(f.outs[0], b.ins[0], ForwardToFeedback), back], outs,
           RemoveAt(f.ins, loopIn))
    else
      Flat(f.blocks + b.blocks + m.value.blocks,
           f.wires + b.wires + m.value.wires
             + [Wire(f.outs[0], m.value.ins[0], ToMonitor), Wire(m.value.outs[0], b.ins[0], MonitorToFeedback), back],
           outs, RemoveAt(f.ins, loopIn))
  }

  /** The graph of a nesting whose first block takes position `base`, with an output for every declared one. */
  function Flatten<S>(t: Tree<S>, base: nat): (g: Flat<S>)
    requires WellTyped(t)
    ensures |g.blocks| == Size(t) && |g.outs| == NOut(t) && |g.ins| == NIn(t) && |g.wires| == Wires(t)
  {
    match t
    case Leaf(kind) => Flat([kind], [], PortsOf(base, kind.nOut), PortsOf(base, kind.nIn))
    case Merge(left, outId, right, inId) => Join(Flatten(left, base), outId, Flatten(right, base + Size(left)), inId)
    case Feedback(forward, feedback, monitor, loopIn, tap) =>
      JoinLoop(Flatten(forward, base), Flatten(feedback, base + Size(forward)),
               FlattenMonitor(monitor, base + Size(forward) + Size(feedback)), loopIn, tap)
  }

  function FlattenMonitor<S>(monitor: Option<Tree<S>>, base: nat): (g: Option<Flat<S>>)
    requires monitor.Some? ==> WellTyped(monitor.value)
    ensures g.Some? == monitor.Some?
    ensures g.Some? ==> |g.value.blocks| == Size(monitor.value) && |g.value.outs| == NOut(monitor.value)
                        && |g.value.ins| == NIn(monitor.value) && |g.value.wires| == Wires(monitor.value)
  {
    match monitor
    case None => None
    case Some(m) => Some(Flatten(m, base))
  }

  /** The graph's own state: one state per block, and the sample waiting on each wire that holds one. */
  datatype Memory<S> = Memory(states: seq<S>, held: seq<real>)

  function JoinMemory<S>(l: Memory<S>, r: Memory<S>): Memory<S> {
    Memory(l.states + r.states, l.held + r.held + [0.0])
  }

  function JoinLoopMemory<S>(f: Memory<S>, b: Memory<S>, m: Option<Memory<S>>, held: real): Memory<S> {
    if m.None? then Memory(f.states + b.states, f.held + b.held + [0.0, held])
    else Memory(f.states + b.states + m.value.states, f.held + b.held + m.value.held + [0.0, 0.0, held])
  }

  function FlatMemory<S>(t: Tree<S>, st: State<S>): (m: Memory<S>)
    requires WellTyped(t) && Fits(t, st)
    ensures |m.states| == Size(t) && |m.held| == Wires(t)
  {
    match t
    case Leaf(_) => Memory([st.s], [])
    case Merge(left, _, right, _) => JoinMemory(FlatMemory(left, st.l), FlatMemory(right, st.r))
    case Feedback(forward, feedback, monitor, _, _) =>
      JoinLoopMemory(FlatMemory(forward, st.f), FlatMemory(feedback, st.b), MonitorMemory(monitor, st.m), st.held)
  }

  function MonitorMemory<S>(monitor: Option<Tree<S>>, st: Option<State<S>>): (m: Option<Memory<S>>)
    requires monitor.Some? ==> WellTyped(monitor.value) && st.Some? && Fits(monitor.value, st.value)
    ensures m.Some? == monitor.Some?
    ensures m.Some? ==> |m.value.states| == Size(monitor.value) && |m.value.held| == Wires(monitor.value)
  {
    match monitor
    case None => None
    case Some(t) => Some(FlatMemory(t, st.value))
  }

  // --- what it means for signals to run through a graph ---------------------------------------------

  function Values(signal: PortRef -> real, ports: seq<PortRef>): (r: seq<real>)
    ensures |r| == |ports| && forall i :: 0 <= i < |r| ==> r[i] == signal(ports[i])
  {
    seq(|ports|, i requires 0 <= i < |ports| => signal(ports[i]))
  }

  /** Every block's outputs are what its step makes of its inputs. */
  ghost predicate BlocksRun<S>(blocks: seq<Kind<S>>, base: nat, states: seq<S>, inn: PortRef -> real,
                               out: PortRef -> real) {
    |states| == |blocks| && forall i :: 0 <= i < |blocks| ==>
      Values(out, PortsOf(base + i, blocks[i].nOut))
        == Step(blocks[i], states[i], Values(inn, PortsOf(base + i, blocks[i].nIn)))
  }

  /** Every wire hands its source's sample on, a loop wire the one that was waiting on it. */
  ghost predicate WiresRun(wires: seq<Wire>, held: seq<real>, inn: PortRef -> real, out: PortRef -> real) {
    |held| == |wires| && forall j :: 0 <= j < |wires| ==>
      inn(wires[j].dst) == if wires[j].kind == FeedbackLoop then held[j] else out(wires[j].src)
  }

  /** An assignment of samples to all input and output ports that the graph admits for these inputs. */
  ghost predicate Solves<S>(g: Flat<S>, base: nat, m: Memory<S>, xs: seq<real>, inn: PortRef -> real,
                            out: PortRef -> real) {
    BlocksRun(g.blocks, base, m.states, inn, out) && WiresRun(g.wires, m.held, inn, out) && Values(inn, g.ins) == xs
  }

  function NextStates<S>(blocks: seq<Kind<S>>, base: nat, states: seq<S>, inn: PortRef -> real): (r: seq<S>)
    requires |states| == |blocks|
    ensures |r| == |blocks|
  {
    seq(|blocks|, i requires 0 <= i < |blocks| =>
      blocks[i].next(states[i], Values(inn, PortsOf(base + i, blocks[i].nIn))))
  }

  function NextHeld(wires: seq<Wire>, out: PortRef -> real): (r: seq<real>)
    ensures |r| == |wires|
  {
    seq(|wires|, j requires 0 <= j < |wires| => if wires[j].kind == FeedbackLoop then out(wires[j].src) else 0.0)
  }

  /** The graph's state one sample later. */
  function NextMemory<S>(g: Flat<S>, base: nat, m: Memory<S>, inn: PortRef -> real, out: PortRef -> real): Memory<S>
    requires |m.states| == |g.blocks|
  {
    Memory(NextStates(g.blocks, base, m.states, inn), NextHeld(g.wires, out))
  }

  lemma BlocksSplit<S>(a: seq<Kind<S>>, b: seq<Kind<S>>, base: nat, sa: seq<S>, sb: seq<S>, inn: PortRef -> real,
                       out: PortRef -> real)
    requires |sa| == |a| && |sb| == |b|
    ensures BlocksRun(a + b, base, sa + sb, inn, out)
            <==> BlocksRun(a, base, sa, inn, out) && BlocksRun(b, base + |a|, sb, inn, out)
    ensures NextStates(a + b, base, sa + sb, inn) == NextStates(a, base, sa, inn) + NextStates(b, base + |a|, sb, inn)
  {
    if BlocksRun(a + b, base, sa + sb, inn, out) {
      forall i | 0 <= i < |a|
        ensures Values(out, PortsOf(base + i, a[i].nOut)) == Step(a[i], sa[i], Values(inn, PortsOf(base + i, a[i].nIn)))
      {
        assert (a + b)[i] == a[i] && (sa + sb)[i] == sa[i];
      }
      forall i | 0 <= i < |b|
        ensures Values(out, PortsOf(base + |a| + i, b[i].nOut))
                == Step(b[i], sb[i], Values(inn, PortsOf(base + |a| + i, b[i].nIn)))
      {
        assert (a + b)[|a| + i] == b[i] && (sa + sb)[|a| + i] == sb[i] && base + (|a| + i) == base + |a| + i;
      }
    }
  }

  lemma WiresSplit(a: seq<Wire>, b: seq<Wire>, ha: seq<real>, hb: seq<real>, inn: PortRef -> real, out: PortRef -> real)
    requires |ha| == |a| && |hb| == |b|
    ensures WiresRun(a + b, ha + hb, inn, out) <==> WiresRun(a, ha, inn, out) && WiresRun(b, hb, inn, out)
    ensures NextHeld(a + b, out) == NextHeld(a, out) + NextHeld(b, out)
  {
    if WiresRun(a + b, ha + hb, inn, out) {
      forall j | 0 <= j < |b| ensures inn(b[j].dst) == if b[j].kind == FeedbackLoop then hb[j] else out(b[j].src) {
        assert (a + b)[|a| + j] == b[j] && (ha + hb)[|a| + j] == hb[j];
      }
      forall j | 0 <= j < |a| ensures inn(a[j].dst) == if a[j].kind == FeedbackLoop then ha[j] else out(a[j].src) {
        assert (a + b)[j] == a[j] && (ha + hb)[j] == ha[j];
      }
    }
  }

  lemma ValuesSplit(signal: PortRef -> real, a: seq<PortRef>, b: seq<PortRef>)
    ensures Values(signal, a + b) == Values(signal, a) + Values(signal, b)
  {
  }

  /** Putting a removed port's sample back in its place. */
  lemma ValuesInsert(signal: PortRef -> real, ports: seq<PortRef>, i: nat)
    requires i < |ports|
    ensures Values(signal, ports) == InsertAt(Values(signal, RemoveAt(ports, i)), i, signal(ports[i]))
  {
  }

  // --- graphs put together ------------------------------------------------------------------------

  predicate Sized<S>(g: Flat<S>, m: Memory<S>) {
    |m.states| == |g.blocks| && |m.held| == |g.wires|
  }

  lemma OneWire(w: Wire, held: real, inn: PortRef -> real, out: PortRef -> real)
    ensures WiresRun([w], [held], inn, out) <==> inn(w.dst) == if w.kind == FeedbackLoop then held else out(w.src)
    ensures NextHeld([w], out) == [if w.kind == FeedbackLoop then out(w.src) else 0.0]
  {
    if inn(w.dst) == if w.kind == FeedbackLoop then held else out(w.src) {
      forall j | 0 <= j < 1
        ensures inn([w][j].dst) == if [w][j].kind == FeedbackLoop then [held][j] else out([w][j].src)
      {
      }
    }
    if WiresRun([w], [held], inn, out) { assert [w][0] == w; }
  }

  /** What a joined graph admits is what its parts admit, the right part fed with the left one's sample. */
  lemma JoinSolves<S>(l: Flat<S>, outId: nat, r: Flat<S>, inId: nat, base: nat, lm: Memory<S>, rm: Memory<S>,
                            xs: seq<real>, inn: PortRef -> real, out: PortRef -> real)
    requires outId < |l.outs| && inId < |r.ins| && Sized(l, lm) && Sized(r, rm) && |xs| == |l.ins| + |r.ins| - 1
    ensures Solves(Join(l, outId, r, inId), base, JoinMemory(lm, rm), xs, inn, out)
       <==> Solves(l, base, lm, xs[..|l.ins|], inn, out)
            && Solves(r, base + |l.blocks|, rm, InsertAt(xs[|l.ins|..], inId, out(l.outs[outId])), inn, out)
  {
    var n, wire := |l.ins|, Wire(l.outs[outId], r.ins[inId], Merged);
    BlocksSplit(l.blocks, r.blocks, base, lm.states, rm.states, inn, out);
    WiresSplit(l.wires + r.wires, [wire], lm.held + rm.held, [0.0], inn, out);
    WiresSplit(l.wires, r.wires, lm.held, rm.held, inn, out);
    OneWire(wire, 0.0, inn, out);
    InputsJoin(l.ins, r.ins, inId, xs, out(wire.src), inn);
  }

  lemma InputsJoin(a: seq<PortRef>, b: seq<PortRef>, i: nat, xs: seq<real>, y: real, inn: PortRef -> real)
    requires i < |b| && |xs| == |a| + |b| - 1
    ensures Values(inn, a + RemoveAt(b, i)) == xs && inn(b[i]) == y
       <==> Values(inn, a) == xs[..|a|] && Values(inn, b) == InsertAt(xs[|a|..], i, y)
  {
    ValuesSplit(inn, a, RemoveAt(b, i));
    ValuesInsert(inn, b, i);
    var rest := xs[|a|..];
    assert xs == xs[..|a|] + rest;
    if Values(inn, a) == xs[..|a|] && Values(inn, b) == InsertAt(rest, i, y) {
      assert Values(inn, b)[i] == y;
      assert RemoveAt(InsertAt(rest, i, y), i) == rest;
      assert Values(inn, RemoveAt(b, i)) == RemoveAt(Values(inn, b), i);
    }
    if Values(inn, a + RemoveAt(b, i)) == xs {
      assert xs[..|a|] == Values(inn, a) && rest == Values(inn, RemoveAt(b, i));
    }
  }

  lemma JoinNext<S>(l: Flat<S>, outId: nat, r: Flat<S>, inId: nat, base: nat, lm: Memory<S>, rm: Memory<S>,
                          inn: PortRef -> real, out: PortRef -> real)
    requires outId < |l.outs| && inId < |r.ins| && Sized(l, lm) && Sized(r, rm)
    ensures NextMemory(Join(l, outId, r, inId), base, JoinMemory(lm, rm), inn, out)
         == JoinMemory(NextMemory(l, base, lm, inn, out), NextMemory(r, base + |l.blocks|, rm, inn, out))
  {
    var wire := Wire(l.outs[outId], r.ins[inId], Merged);
    BlocksSplit(l.blocks, r.blocks, base, lm.states, rm.states, inn, out);
    WiresSplit(l.wires + r.wires, [wire], lm.held + rm.held, [0.0], inn, out);
    WiresSplit(l.wires, r.wires, lm.held, rm.held, inn, out);
    OneWire(wire, 0.0, inn, out);
  }

  lemma LoopSolves<S>(f: Flat<S>, b: Flat<S>, loopIn: nat, tap: bool, base: nat, fm: Memory<S>, bm: Memory<S>,
                      held: real, xs: seq<real>, inn: PortRef -> real, out: PortRef -> real)
    requires |f.outs| == 1 && |b.ins| == 1 && |b.outs| == 1 && loopIn < |f.ins| && Sized(f, fm) && Sized(b, bm)
    requires |xs| == |f.ins| - 1
    ensures Solves(JoinLoop(f, b, None, loopIn, tap), base, JoinLoopMemory(fm, bm, None, held), xs, inn, out)
       <==> Solves(f, base, fm, InsertAt(xs, loopIn, held), inn, out)
            && Solves(b, base + |f.blocks|, bm, [out(f.outs[0])], inn, out)
    ensures NextMemory(JoinLoop(f, b, None, loopIn, tap), base, JoinLoopMemory(fm, bm, None, held), inn, out)
         == JoinLoopMemory(NextMemory(f, base, fm, inn, out), NextMemory(b, base + |f.blocks|, bm, inn, out), None,
                           out(b.outs[0]))
  {
    hide BlocksRun, NextStates, WiresRun, NextHeld, Values, InsertAt, RemoveAt;
    var ahead, back := Wire(f.outs[0], b.ins[0], ForwardToFeedback), Wire(b.outs[0], f.ins[loopIn], FeedbackLoop);
    BlocksSplit(f.blocks, b.blocks, base, fm.states, bm.states, inn, out);
    LoopWires(f.wires, b.wires, ahead, back, fm.held, bm.held, held, inn, out);
    LoopInputs(f.ins, loopIn, xs, held, inn);
    OnlyInput(b.ins, out(f.outs[0]), inn);
  }

  lemma LoopWires(f: seq<Wire>, b: seq<Wire>, ahead: Wire, back: Wire, fHeld: seq<real>, bHeld: seq<real>, held: real,
                  inn: PortRef -> real, out: PortRef -> real)
    requires |fHeld| == |f| && |bHeld| == |b| && ahead.kind == ForwardToFeedback && back.kind == FeedbackLoop
    ensures WiresRun(f + b + [ahead, back], fHeld + bHeld + [0.0, held], inn, out)
       <==> WiresRun(f, fHeld, inn, out) && WiresRun(b, bHeld, inn, out) && inn(ahead.dst) == out(ahead.src)
            && inn(back.dst) == held
    ensures NextHeld(f + b + [ahead, back], out) == NextHeld(f, out) + NextHeld(b, out) + [0.0, out(back.src)]
  {
    hide WiresRun, NextHeld;
    WiresSplit(f + b, [ahead, back], fHeld + bHeld, [0.0, held], inn, out);
    WiresSplit(f, b, fHeld, bHeld, inn, out);
    TwoWires(ahead, back, held, inn, out);
  }

  lemma MonitoredLoopWires(f: seq<Wire>, b: seq<Wire>, m: seq<Wire>, toM: Wire, toB: Wire, back: Wire, fHeld: seq<real>,
                           bHeld: seq<real>, mHeld: seq<real>, held: real, inn: PortRef -> real, out: PortRef -> real)
    requires |fHeld| == |f| && |bHeld| == |b| && |mHeld| == |m|
    requires toM.kind == ToMonitor && toB.kind == MonitorToFeedback && back.kind == FeedbackLoop
    ensures WiresRun(f + b + m + [toM, toB, back], fHeld + bHeld + mHeld + [0.0, 0.0, held], inn, out)
       <==> WiresRun(f, fHeld, inn, out) && WiresRun(b, bHeld, inn, out) && WiresRun(m, mHeld, inn, out)
            && inn(toM.dst) == out(toM.src) && inn(toB.dst) == out(toB.src) && inn(back.dst) == held
    ensures NextHeld(f + b + m + [toM, toB, back], out)
            == NextHeld(f, out) + NextHeld(b, out) + NextHeld(m, out) + [0.0, 0.0, out(back.src)]
  {
    hide WiresRun, NextHeld;
    WiresSplit(f + b + m, [toM, toB, back], fHeld + bHeld + mHeld, [0.0, 0.0, held], inn, out);
    WiresSplit(f + b, m, fHeld + bHeld, mHeld, inn, out);
    WiresSplit(f, b, fHeld, bHeld, inn, out);
    ThreeWires(toM, toB, back, held, inn, out);
  }

  lemma LoopInputs(ins: seq<PortRef>, i: nat, xs: seq<real>, held: real, inn: PortRef -> real)
    requires i < |ins| && |xs| == |ins| - 1
    ensures Values(inn, RemoveAt(ins, i)) == xs && inn(ins[i]) == held <==> Values(inn, ins) == InsertAt(xs, i, held)
  {
    hide Values, InsertAt, RemoveAt;
    InputsJoin([], ins, i, xs, held, inn);
    assert [] + RemoveAt(ins, i) == RemoveAt(ins, i) && xs[0..] == xs && xs[..0] == [] && Values(inn, []) == [];
  }

  lemma OnlyInput(ins: seq<PortRef>, x: real, inn: PortRef -> real)
    requires |ins| == 1
    ensures Values(inn, ins) == [x] <==> inn(ins[0]) == x
  {
    if Values(inn, ins) == [x] { assert Values(inn, ins)[0] == x; }
  }

  lemma MonitoredLoopSolves<S>(f: Flat<S>, b: Flat<S>, m: Flat<S>, loopIn: nat, tap: bool, base: nat, fm: Memory<S>,
                               bm: Memory<S>, mm: Memory<S>, held: real, xs: seq<real>, inn: PortRef -> real,
                               out: PortRef -> real)
    requires |f.outs| == 1 && |b.ins| == 1 && |b.outs| == 1 && loopIn < |f.ins| && Sized(f, fm) && Sized(b, bm)
    requires |xs| == |f.ins| - 1
    requires |m.ins| == 1 && |m.outs| == 1 && Sized(m, mm)
    ensures Solves(JoinLoop(f, b, Some(m), loopIn, tap), base, JoinLoopMemory(fm, bm, Some(mm), held), xs, inn, out)
       <==> Solves(f, base, fm, InsertAt(xs, loopIn, held), inn, out)
            && Solves(m, base + |f.blocks| + |b.blocks|, mm, [out(f.outs[0])], inn, out)
            && Solves(b, base + |f.blocks|, bm, [out(m.outs[0])], inn, out)
    ensures NextMemory(JoinLoop(f, b, Some(m), loopIn, tap), base, JoinLoopMemory(fm, bm, Some(mm), held), inn, out)
         == JoinLoopMemory(NextMemory(f, base, fm, inn, out), NextMemory(b, base + |f.blocks|, bm, inn, out),
                           Some(NextMemory(m, base + |f.blocks| + |b.blocks|, mm, inn, out)), out(b.outs[0]))
  {
    var toM, toB, back := Wire(f.outs[0], m.ins[0], ToMonitor), Wire(m.outs[0], b.ins[0], MonitorToFeedback),
                          Wire(b.outs[0], f.ins[loopIn], FeedbackLoop);
    hide BlocksRun, NextStates, WiresRun, NextHeld, Values, InsertAt, RemoveAt;
    ThreeBlocks(f, b, m, base, fm, bm, mm, inn, out);
    MonitoredLoopWires(f.wires, b.wires, m.wires, toM, toB, back, fm.held, bm.held, mm.held, held, inn, out);
    LoopInputs(f.ins, loopIn, xs, held, inn);
    OnlyInput(m.ins, out(f.outs[0]), inn);
    OnlyInput(b.ins, out(m.outs[0]), inn);
  }

  lemma ThreeBlocks<S>(f: Flat<S>, b: Flat<S>, m: Flat<S>, base: nat, fm: Memory<S>, bm: Memory<S>, mm: Memory<S>,
                             inn: PortRef -> real, out: PortRef -> real)
    requires Sized(f, fm) && Sized(b, bm) && Sized(m, mm)
    ensures var blocks, states := f.blocks + b.blocks + m.blocks, fm.states + bm.states + mm.states;
            && (BlocksRun(blocks, base, states, inn, out) <==>
                BlocksRun(f.blocks, base, fm.states, inn, out)
                  && BlocksRun(b.blocks, base + |f.blocks|, bm.states, inn, out)
                && BlocksRun(m.blocks, base + |f.blocks| + |b.blocks|, mm.states, inn, out))
            && NextStates(blocks, base, states, inn) == NextStates(f.blocks, base, fm.states, inn)
                 + NextStates(b.blocks, base + |f.blocks|, bm.states, inn)
                   + NextStates(m.blocks, base + |f.blocks| + |b.blocks|, mm.states, inn)
  {
    hide BlocksRun, NextStates;
    BlocksSplit(f.blocks + b.blocks, m.blocks, base, fm.states + bm.states, mm.states, inn, out);
    BlocksSplit(f.blocks, b.blocks, base, fm.states, bm.states, inn, out);
    assert base + |f.blocks + b.blocks| == base + |f.blocks| + |b.blocks|;
  }

  lemma TwoWires(ahead: Wire, back: Wire, held: real, inn: PortRef -> real, out: PortRef -> real)
    requires ahead.kind == ForwardToFeedback && back.kind == FeedbackLoop
    ensures WiresRun([ahead, back], [0.0, held], inn, out)
            <==> inn(ahead.dst) == out(ahead.src) && inn(back.dst) == held
    ensures NextHeld([ahead, back], out) == [0.0, out(back.src)]
  {
    assert [ahead, back] == [ahead] + [back] && [0.0, held] == [0.0] + [held];
    WiresSplit([ahead], [back], [0.0], [held], inn, out);
    OneWire(ahead, 0.0, inn, out);
    OneWire(back, held, inn, out);
  }

  lemma ThreeWires(toM: Wire, toB: Wire, back: Wire, held: real, inn: PortRef -> real, out: PortRef -> real)
    requires toM.kind == ToMonitor && toB.kind == MonitorToFeedback && back.kind == FeedbackLoop
    ensures WiresRun([toM, toB, back], [0.0, 0.0, held], inn, out)
            <==> inn(toM.dst) == out(toM.src) && inn(toB.dst) == out(toB.src) && inn(back.dst) == held
    ensures NextHeld([toM, toB, back], out) == [0.0, 0.0, out(back.src)]
  {
    assert [toM, toB, back] == [toM] + [toB] + [back] && [0.0, 0.0, held] == [0.0] + [0.0] + [held];
    WiresSplit([toM] + [toB], [back], [0.0] + [0.0], [held], inn, out);
    WiresSplit([toM], [toB], [0.0], [0.0], inn, out);
    OneWire(toM, 0.0, inn, out);
    OneWire(toB, 0.0, inn, out);
    OneWire(back, held, inn, out);
  }

  // --- the graph computes the fused function --------------------------------------------------------

  ghost predicate Agrees<S>(t: Tree<S>, base: nat, st: State<S>, xs: seq<real>, inn: PortRef -> real,
                            out: PortRef -> real)
    requires WellTyped(t) && Fits(t, st) && |xs| == NIn(t)
  {
    var g, (next, ys) := Flatten(t, base), Fused(t, st, xs);
    Values(out, g.outs) == ys && NextMemory(g, base, FlatMemory(t, st), inn, out) == FlatMemory(t, next)
  }

  /** Whatever samples the flattened graph admits, its outputs and its next state are those of the
      fused function, in the same port order. */
  lemma {:induction false} GraphComputesFused<S>(t: Tree<S>, base: nat, st: State<S>, xs: seq<real>,
                                                 inn: PortRef -> real, out: PortRef -> real)
    requires WellTyped(t) && Fits(t, st) && |xs| == NIn(t)
    requires Solves(Flatten(t, base), base, FlatMemory(t, st), xs, inn, out)
    ensures Agrees(t, base, st, xs, inn, out)
    decreases t, 2
  {
    match t
    case Leaf(kind) => LeafComputes(kind, base, st, xs, inn, out);
    case Merge(_, _, _, _) => MergeComputesFused(t, base, st, xs, inn, out);
    case Feedback(_, _, _, _, _) => FeedbackComputesFused(t, base, st, xs, inn, out);
  }

  lemma LeafComputes<S>(kind: Kind<S>, base: nat, st: State<S>, xs: seq<real>, inn: PortRef -> real,
                        out: PortRef -> real)
    requires WellTyped(Leaf(kind)) && Fits(Leaf(kind), st) && |xs| == kind.nIn
    requires Solves(Flatten(Leaf(kind), base), base, FlatMemory(Leaf(kind), st), xs, inn, out)
    ensures Agrees(Leaf(kind), base, st, xs, inn, out)
  {
    var g := Flatten(Leaf(kind), base);
    assert g.blocks[0] == kind;
    assert Values(inn, PortsOf(base + 0, kind.nIn)) == xs;
  }

  lemma FlattenMerge<S>(t: Tree<S>, base: nat)
    requires WellTyped(t) && t.Merge?
    ensures Flatten(t, base) == Join(Flatten(t.left, base), t.outId, Flatten(t.right, base + Size(t.left)), t.inId)
  {
    hide Join, PortsOf;
  }

  lemma MemoryMerge<S>(t: Tree<S>, st: State<S>)
    requires WellTyped(t) && t.Merge? && Fits(t, st)
    ensures FlatMemory(t, st) == JoinMemory(FlatMemory(t.left, st.l), FlatMemory(t.right, st.r))
  {
    hide JoinMemory;
  }

  lemma FusedMerge<S>(t: Tree<S>, st: State<S>, xs: seq<real>)
    requires WellTyped(t) && Fits(t, st) && |xs| == NIn(t) && t.Merge?
    ensures NIn(t.left) >= 0 && NIn(t.right) >= 0
    ensures var l := Fused(t.left, st.l, xs[..NIn(t.left)]);
            var r := Fused(t.right, st.r, InsertAt(xs[NIn(t.left)..], t.inId, l.1[t.outId]));
            Fused(t, st, xs) == (MergeState(l.0, r.0), RemoveAt(l.1, t.outId) + r.1)
  {
    hide RemoveAt, MergedOutput;
    PortsCounted(t.left);
    PortsCounted(t.right);
  }

  lemma {:induction false} MergeComputesFused<S>(t: Tree<S>, base: nat, st: State<S>, xs: seq<real>,
                                                 inn: PortRef -> real, out: PortRef -> real)
    requires WellTyped(t) && Fits(t, st) && |xs| == NIn(t) && t.Merge?
    requires Solves(Flatten(t, base), base, FlatMemory(t, st), xs, inn, out)
    ensures Agrees(t, base, st, xs, inn, out)
    decreases t, 1
  {
    hide Flatten, FlatMemory, Fused, Solves, Values, PortsOf, NextMemory, RemoveAt, InsertAt;
    FusedMerge(t, st, xs);
    FlattenMerge(t, base);
    MemoryMerge(t, st);
    var n, middle := NIn(t.left), base + Size(t.left);
    var l, r := Flatten(t.left, base), Flatten(t.right, middle);
    var lm, rm := FlatMemory(t.left, st.l), FlatMemory(t.right, st.r);
    JoinSolves(l, t.outId, r, t.inId, base, lm, rm, xs, inn, out);
    GraphComputesFused(t.left, base, st.l, xs[..n], inn, out);
    GraphComputesFused(t.right, middle, st.r, InsertAt(xs[n..], t.inId, out(l.outs[t.outId])), inn, out);
    JoinNext(l, t.outId, r, t.inId, base, lm, rm, inn, out);
    MemoryMerge(t, Fused(t, st, xs).0);
    OutputsJoin(l.outs, r.outs, t.outId, out);
  }

  lemma OutputsJoin(a: seq<PortRef>, b: seq<PortRef>, i: nat, out: PortRef -> real)
    requires i < |a|
    ensures Values(out, RemoveAt(a, i) + b) == RemoveAt(Values(out, a), i) + Values(out, b)
  {
  }

  lemma FlattenFeedback<S>(t: Tree<S>, base: nat)
    requires WellTyped(t) && t.Feedback?
    ensures Flatten(t, base) == JoinLoop(Flatten(t.forward, base), Flatten(t.feedback, base + Size(t.forward)),
                                         FlattenMonitor(t.monitor, base + Size(t.forward) + Size(t.feedback)),
                                         t.loopIn, t.tap)
  {
    hide JoinLoop, PortsOf, FlattenMonitor;
  }

  lemma MemoryFeedback<S>(t: Tree<S>, st: State<S>)
    requires WellTyped(t) && t.Feedback? && Fits(t, st)
    ensures FlatMemory(t, st)
            == JoinLoopMemory(FlatMemory(t.forward, st.f), FlatMemory(t.feedback, st.b), MonitorMemory(t.monitor, st.m),
                              st.held)
  {
    hide JoinLoopMemory, MonitorMemory;
  }

  lemma FusedFeedback<S>(t: Tree<S>, st: State<S>, xs: seq<real>)
    requires WellTyped(t) && Fits(t, st) && |xs| == NIn(t) && t.Feedback?
    ensures var (f, out) := Fused(t.forward, st.f, InsertAt(xs, t.loopIn, st.held));
            if t.monitor.None? then
              var (b, held) := Fused(t.feedback, st.b, out);
              Fused(t, st, xs) == (FeedbackState(f, b, None, held[0]), if t.tap then out + [held[0]] else out)
            else
              var (m, seen) := Fused(t.monitor.value, st.m.value, out);
              var (b, held) := Fused(t.feedback, st.b, seen);
              Fused(t, st, xs) == (FeedbackState(f, b, Some(m), held[0]), if t.tap then out + [held[0]] else out)
  {
    hide InsertAt;
  }

  /** A tap shows, besides what the same merge gives without it, the sample that is now on its way back. */
  lemma TapShowsNextSample<S>(t: Tree<S>, st: State<S>, xs: seq<real>)
    requires WellTyped(t) && Fits(t, st) && |xs| == NIn(t) && t.Feedback? && t.tap
    ensures var (next, ys) := Fused(t.(tap := false), st, xs);
            Fused(t, st, xs) == (next, ys + [next.held])
  {
    hide InsertAt;
    FusedFeedback(t, st, xs);
    FusedFeedback(t.(tap := false), st, xs);
  }

  lemma {:induction false} FeedbackComputesFused<S>(t: Tree<S>, base: nat, st: State<S>, xs: seq<real>,
                                                    inn: PortRef -> real, out: PortRef -> real)
    requires WellTyped(t) && Fits(t, st) && |xs| == NIn(t) && t.Feedback?
    requires Solves(Flatten(t, base), base, FlatMemory(t, st), xs, inn, out)
    ensures Agrees(t, base, st, xs, inn, out)
    decreases t, 1
  {
    if t.monitor.None? {
      PlainLoopComputes(t, base, st, xs, inn, out);
    } else {
      MonitoredLoopComputes(t, base, st, xs, inn, out);
    }
  }

  lemma {:induction false} PlainLoopComputes<S>(t: Tree<S>, base: nat, st: State<S>, xs: seq<real>,
                                                inn: PortRef -> real, out: PortRef -> real)
    requires WellTyped(t) && Fits(t, st) && |xs| == NIn(t) && t.Feedback? && t.monitor.None?
    requires Solves(Flatten(t, base), base, FlatMemory(t, st), xs, inn, out)
    ensures Agrees(t, base, st, xs, inn, out)
    decreases t, 0
  {
    hide Flatten, FlatMemory, Fused, Solves, Values, PortsOf, NextMemory, InsertAt;
    FlattenFeedback(t, base);
    MemoryFeedback(t, st);
    FusedFeedback(t, st, xs);
    MemoryFeedback(t, Fused(t, st, xs).0);
    var middle := base + Size(t.forward);
    var f, b := Flatten(t.forward, base), Flatten(t.feedback, middle);
    LoopSolves(f, b, t.loopIn, t.tap, base, FlatMemory(t.forward, st.f), FlatMemory(t.feedback, st.b), st.held, xs,
               inn, out);
    GraphComputesFused(t.forward, base, st.f, InsertAt(xs, t.loopIn, st.held), inn, out);
    assert Values(out, f.outs) == [out(f.outs[0])];
    GraphComputesFused(t.feedback, middle, st.b, [out(f.outs[0])], inn, out);
    ValuesSplit(out, f.outs, b.outs);
    assert Values(out, b.outs) == [out(b.outs[0])];
  }

  lemma {:induction false} MonitoredLoopComputes<S>(t: Tree<S>, base: nat, st: State<S>, xs: seq<real>,
                                                    inn: PortRef -> real, out: PortRef -> real)
    requires WellTyped(t) && Fits(t, st) && |xs| == NIn(t) && t.Feedback? && t.monitor.Some?
    requires Solves(Flatten(t, base), base, FlatMemory(t, st), xs, inn, out)
    ensures Agrees(t, base, st, xs, inn, out)
    decreases t, 0
  {
    hide Flatten, FlatMemory, Fused, Solves, Values, PortsOf, NextMemory, InsertAt, JoinLoop;
    FlattenFeedback(t, base);
    MemoryFeedback(t, st);
    FusedFeedback(t, st, xs);
    MemoryFeedback(t, Fused(t, st, xs).0);
    var middle := base + Size(t.forward);
    var last := middle + Size(t.feedback);
    var f, b, m := Flatten(t.forward, base), Flatten(t.feedback, middle), Flatten(t.monitor.value, last);
    MonitoredLoopSolves(f, b, m, t.loopIn, t.tap, base, FlatMemory(t.forward, st.f), FlatMemory(t.feedback, st.b),
                        FlatMemory(t.monitor.value, st.m.value), st.held, xs, inn, out);
    GraphComputesFused(t.forward, base, st.f, InsertAt(xs, t.loopIn, st.held), inn, out);
    assert Values(out, f.outs) == [out(f.outs[0])] && Values(out, m.outs) == [out(m.outs[0])];
    GraphComputesFused(t.monitor.value, last, st.m.value, [out(f.outs[0])], inn, out);
    GraphComputesFused(t.feedback, middle, st.b, [out(m.outs[0])], inn, out);
    ValuesSplit(out, f.outs, b.outs);
    assert Values(out, b.outs) == [out(b.outs[0])];
  }
}
