/** Merged blocks: the fused per-sample function of a nesting of merges, and the graph the same nesting
    describes. Samples are reals. */
module BlockMerging {
  import opened Options

  /** A block that is not itself a merge: its port counts, and what one sample of every input makes of
      its private state and of each of its outputs. */
  datatype Kind<!S> = Kind(nIn: nat, nOut: nat, next: (S, seq<real>) -> S, output: (S, seq<real>, nat) -> real)

  /** `Merge` connects one output of the left block to one input of the right one. `Feedback` feeds the
      only output of `forward` through `monitor`, if there is one, and `feedback` back to an input of
      `forward`, one sample late; with `tap` the fed-back sample is an output too. */
  datatype Tree<!S> =
    | Leaf(kind: Kind<S>)
    | Merge(left: Tree<S>, outId: nat, right: Tree<S>, inId: nat)
    | Feedback(forward: Tree<S>, feedback: Tree<S>, monitor: Option<Tree<S>>, loopIn: nat, tap: bool)

  /** The state a nesting carries from sample to sample. */
  datatype State<S> =
    | LeafState(s: S)
    | MergeState(l: State<S>, r: State<S>)
    | FeedbackState(f: State<S>, b: State<S>, m: Option<State<S>>, held: real)

  function NIn<S>(t: Tree<S>): int {
    match t
    case Leaf(kind) => kind.nIn
    case Merge(left, _, right, _) => NIn(left) + NIn(right) - 1
    case Feedback(forward, _, _, _, _) => NIn(forward) - 1
  }

  /** The outputs a block declares to the outside. */
  function NOut<S>(t: Tree<S>): int {
    match t
    case Leaf(kind) => kind.nOut
    case Merge(left, _, right, _) => NOut(left) - 1 + NOut(right)
    case Feedback(_, _, _, _, tap) => if tap then 2 else 1
  }

  /** What the compiler demands of a nesting. */
  predicate WellTyped<S>(t: Tree<S>) {
    match t
    case Leaf(_) => true
    case Merge(left, outId, right, inId) => WellTyped(left) && WellTyped(right) && outId < NOut(left)
      && inId < NIn(right)
    case Feedback(forward, feedback, monitor, loopIn, _) =>
      && WellTyped(forward) && WellTyped(feedback)
      && NIn(forward) >= 2 && NOut(forward) == 1 && NIn(feedback) == 1 && NOut(feedback) == 1 && loopIn < NIn(forward)
      && (monitor.Some? ==> WellTyped(monitor.value) && NIn(monitor.value) == 1 && NOut(monitor.value) == 1)
  }

  predicate Fits<S>(t: Tree<S>, st: State<S>) {
    match t
    case Leaf(_) => st.LeafState?
    case Merge(left, _, right, _) => st.MergeState? && Fits(left, st.l) && Fits(right, st.r)
    case Feedback(forward, feedback, monitor, _, _) =>
      && st.FeedbackState? && Fits(forward, st.f) && Fits(feedback, st.b)
      && monitor.Some? == st.m.Some? && (monitor.Some? ==> Fits(monitor.value, st.m.value))
  }

  lemma {:induction false} PortsCounted<S>(t: Tree<S>)
    requires WellTyped(t)
    ensures NIn(t) >= 0 && NOut(t) >= 0
  {
    match t
    case Merge(left, _, right, _) =>
      PortsCounted(left);
      PortsCounted(right);
    case _ =>
  }

  function RemoveAt<T>(s: seq<T>, i: nat): (r: seq<T>)
    requires i < |s|
    ensures |r| == |s| - 1
  {
    s[..i] + s[i + 1..]
  }

  function InsertAt<T>(s: seq<T>, i: nat, x: T): (r: seq<T>)
    requires i <= |s|
    ensures |r| == |s| + 1 && RemoveAt(r, i) == s && r[i] == x
  {
    s[..i] + [x] + s[i..]
  }

  // --- the fused form -----------------------------------------------------------------------------

  /** The result of a merge, in the cases the source tells apart by the left block's output count. */
  function MergedOutput(leftOut: seq<real>, outId: nat, rightOut: seq<real>): (r: seq<real>)
    requires outId < |leftOut|
    ensures r == RemoveAt(leftOut, outId) + rightOut
  {
    if |leftOut| == 1 then rightOut
    else if |leftOut| == 2 then [leftOut[1 - outId]] + rightOut
    else leftOut[..outId] + leftOut[outId + 1..] + rightOut
  }

  /** One sample through a block. */
  function Step<S>(kind: Kind<S>, s: S, xs: seq<real>): (r: seq<real>)
    ensures |r| == kind.nOut
  {
    seq(kind.nOut, (p: nat) => kind.output(s, xs, p))
  }

  /** One sample through a nesting, `processOne`. */
  function Fused<S>(t: Tree<S>, st: State<S>, xs: seq<real>): (r: (State<S>, seq<real>))
    requires WellTyped(t) && Fits(t, st) && |xs| == NIn(t)
    ensures Fits(t, r.0) && |r.1| == NOut(t)
  {
    match t
    case Leaf(kind) => (LeafState(kind.next(st.s, xs)), Step(kind, st.s, xs))
    case Merge(left, outId, right, inId) =>
      PortsCounted(left); PortsCounted(right);
      var n := NIn(left);
      var (l, leftOut) := Fused(left, st.l, xs[..n]);
      var (r, rightOut) := Fused(right, st.r, InsertAt(xs[n..], inId, leftOut[outId]));
      (MergeState(l, r), MergedOutput(leftOut, outId, rightOut))
    case Feedback(forward, feedback, monitor, loopIn, tap) =>
      var (f, out) := Fused(forward, st.f, InsertAt(xs, loopIn, st.held));
      var (m, seen) := if monitor.None? then (None, out)
                       else var (m', y) := Fused(monitor.value, st.m.value, out); (Some(m'), y);
      var (b, held) := Fused(feedback, st.b, seen);
      (FeedbackState(f, b, m, held[0]), if tap then out + [held[0]] else out)
  }
}
