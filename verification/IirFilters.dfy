/** The low-pass filter three ways: as a scalar recurrence, as a feedback merge, and as a feedback merge
    whose feedback block is split into two summed paths. Samples are reals, so rounding is left out. */
module IirFilters {
  import opened Options
  import opened BlockMerging

  /** The state of a block that keeps none, or the states of the paths inside it. */
  datatype Cell = Cell(parts: seq<Cell>)

  function MultiplyConst(value: real): Kind<Cell> {
    Kind(1, 1, (s: Cell, xs: seq<real>) => s,
         (s: Cell, xs: seq<real>, p: nat) => if |xs| == 1 then xs[0] * value else 0.0)
  }

  function Adder(): Kind<Cell> {
    Kind(2, 1, (s: Cell, xs: seq<real>) => s,
         (s: Cell, xs: seq<real>, p: nat) => if |xs| == 2 then xs[0] + xs[1] else 0.0)
  }

  /** The weight of a path; missing ones are 1. */
  function SignOf(signs: seq<real>, i: nat): real {
    if i < |signs| then signs[i] else 1.0
  }

  function PathState(s: Cell, i: nat): Cell {
    if i < |s.parts| then s.parts[i] else Cell([])
  }

  /** The weighted results of the paths from the i-th on, added from the right. */
  function PathSum(paths: seq<Kind<Cell>>, signs: seq<real>, s: Cell, xs: seq<real>, i: nat): real
    requires i < |paths|
    decreases |paths| - i
  {
    var term := SignOf(signs, i) * paths[i].output(PathState(s, i), xs, 0);
    if i + 1 == |paths| then term else term + PathSum(paths, signs, s, xs, i + 1)
  }

  function PathStates(paths: seq<Kind<Cell>>, s: Cell, xs: seq<real>): Cell {
    Cell(seq(|paths|, i requires 0 <= i < |paths| => paths[i].next(PathState(s, i), xs)))
  }

  /** `SplitMergeCombine`: one input handed to every path, the weighted results summed. */
  function SplitMergeCombine(paths: seq<Kind<Cell>>, signs: seq<real>): Kind<Cell>
    requires |paths| >= 2
  {
    Kind(1, 1, (s: Cell, xs: seq<real>) => PathStates(paths, s, xs),
         (s: Cell, xs: seq<real>, p: nat) => PathSum(paths, signs, s, xs, 0))
  }

  function Sum(terms: seq<real>): real {
    if terms == [] then 0.0 else terms[0] + Sum(terms[1..])
  }

  lemma {:induction false} PathSumIsSum(paths: seq<Kind<Cell>>, signs: seq<real>, s: Cell, xs: seq<real>, i: nat,
                                        terms: seq<real>)
    requires i < |paths| == |terms|
    requires forall k :: 0 <= k < |terms| ==>
               terms[k] == (if k < |signs| then signs[k] else 1.0) * paths[k].output(PathState(s, k), xs, 0)
    ensures PathSum(paths, signs, s, xs, i) == Sum(terms[i..])
    decreases |paths| - i
  {
    assert terms[i..][1..] == terms[i + 1..];
    if i + 1 < |paths| { PathSumIsSum(paths, signs, s, xs, i + 1, terms); } else { assert terms[i + 1..] == []; }
  }

  /** Every path takes its own step, and the output is the sum of all paths' outputs, each with its sign and
      the missing ones with 1. */
  lemma EveryPathRuns(paths: seq<Kind<Cell>>, signs: seq<real>, s: Cell, x: real)
    requires |paths| >= 2 && |s.parts| == |paths|
    ensures var k := SplitMergeCombine(paths, signs);
            && |k.next(s, [x]).parts| == |paths|
            && (forall i :: 0 <= i < |paths| ==> k.next(s, [x]).parts[i] == paths[i].next(s.parts[i], [x]))
            && k.output(s, [x], 0) == Sum(seq(|paths|, i requires 0 <= i < |paths| =>
                 (if i < |signs| then signs[i] else 1.0) * paths[i].output(s.parts[i], [x], 0)))
  {
    var terms := seq(|paths|, i requires 0 <= i < |paths| =>
      (if i < |signs| then signs[i] else 1.0) * paths[i].output(s.parts[i], [x], 0));
    PathSumIsSum(paths, signs, s, [x], 0, terms);
    assert terms[0..] == terms;
  }

  function Gain(values: seq<real>, signs: seq<real>, i: nat): real
    requires i <= |values|
    decreases |values| - i
  {
    if i == |values| then 0.0 else SignOf(signs, i) * values[i] + Gain(values, signs, i + 1)
  }

  /** Any number of scaling paths with any signs amount to one scaling block. */
  lemma {:induction false} SplitScalesAddUp(values: seq<real>, signs: seq<real>, s: Cell, x: real, i: nat)
    requires i < |values|
    ensures PathSum(seq(|values|, k requires 0 <= k < |values| => MultiplyConst(values[k])), signs, s, [x], i)
            == Gain(values, signs, i) * x
    decreases |values| - i
  {
    var paths := seq(|values|, k requires 0 <= k < |values| => MultiplyConst(values[k]));
    var sign, v := SignOf(signs, i), values[i];
    assert paths[i].output(PathState(s, i), [x], 0) == x * v;
    assert sign * (x * v) == (sign * v) * x;
    if i + 1 < |values| {
      SplitScalesAddUp(values, signs, s, x, i + 1);
      assert (sign * v) * x + Gain(values, signs, i + 1) * x == (sign * v + Gain(values, signs, i + 1)) * x;
    } else {
      assert Gain(values, signs, i + 1) == 0.0;
      assert sign * v + 0.0 == sign * v;
    }
  }

  // --- the filters ------------------------------------------------------------------------------------

  function Chain(alpha: real, feedback: Kind<Cell>): (t: Tree<Cell>)
    requires feedback.nIn == 1 && feedback.nOut == 1
    ensures WellTyped(t) && NIn(t) == 1 && NOut(t) == 1
    ensures Fits(t, Start())
  {
    var add, back := Leaf(Adder()), Leaf(feedback);
    assert WellTyped(add) && NIn(add) == 2 && NOut(add) == 1 && WellTyped(back) && NIn(back) == 1 && NOut(back) == 1;
    var loop := Feedback(add, back, None, 1, false);
    assert WellTyped(loop) && NIn(loop) == 1 && NOut(loop) == 1;
    assert Fits(add, Start().r.f) && Fits(back, Start().r.b);
    assert Fits(loop, Start().r);
    Merge(Leaf(MultiplyConst(alpha)), 0, loop, 0)
  }

  function IirChain(alpha: real): Tree<Cell> {
    Chain(alpha, MultiplyConst(1.0 - alpha))
  }

  function IirChainSplitMerge(alpha: real): Tree<Cell> {
    Chain(alpha, SplitMergeCombine([MultiplyConst(1.0), MultiplyConst(-alpha)], []))
  }

  function Start(): State<Cell> {
    MergeState(LeafState(Cell([])), FeedbackState(LeafState(Cell([])), LeafState(Cell([])), None, 0.0))
  }

  /** The output stream of a nesting with one input and one output. */
  function Filtered(t: Tree<Cell>, st: State<Cell>, xs: seq<real>): seq<real>
    requires WellTyped(t) && Fits(t, st) && NIn(t) == 1 && NOut(t) == 1
    decreases |xs|
  {
    if xs == [] then []
    else
      var (next, ys) := Fused(t, st, [xs[0]]);
      ys + Filtered(t, next, xs[1..])
  }

  function NextOutput(alpha: real, previous: real, x: real): real {
    alpha * x + (1.0 - alpha) * previous
  }

  /** y[n] = alpha * x[n] + (1 - alpha) * y[n-1], from the given previous output. */
  function Recurrence(alpha: real, previous: real, xs: seq<real>): (r: seq<real>)
    ensures |r| == |xs|
    decreases |xs|
  {
    if xs == [] then []
    else
      var y := NextOutput(alpha, previous, xs[0]);
      [y] + Recurrence(alpha, y, xs[1..])
  }

  /** A feedback block that multiplies by 1 - alpha, however it does that. */
  ghost predicate Damps(feedback: Kind<Cell>, alpha: real) {
    feedback.nIn == 1 && feedback.nOut == 1 && forall s, y :: feedback.output(s, [y], 0) == (1.0 - alpha) * y
  }

  lemma ChainStep(alpha: real, feedback: Kind<Cell>, st: State<Cell>, previous: real, x: real)
    requires Damps(feedback, alpha) && Fits(Chain(alpha, feedback), st) && st.MergeState? && st.r.FeedbackState?
    requires st.r.held == (1.0 - alpha) * previous
    ensures var y := NextOutput(alpha, previous, x);
            var r := Fused(Chain(alpha, feedback), st, [x]);
            r.1 == [y] && r.0.MergeState? && r.0.r.FeedbackState? && r.0.r.held == (1.0 - alpha) * y
  {
    var t := Chain(alpha, feedback);
    var scaled := Fused(t.left, st.l, [x]);
    assert [x][..1] == [x] && [x][1..] == [];
    assert scaled.1 == [x * alpha] by { assert scaled.1[0] == x * alpha; }
    assert InsertAt([], 0, x * alpha) == [x * alpha];
    assert InsertAt([x * alpha], 1, st.r.held) == [x * alpha, st.r.held];
    var y := x * alpha + st.r.held;
    var added := Fused(t.right.forward, st.r.f, [x * alpha, st.r.held]);
    assert added.1 == [y];
    var fed := Fused(t.right.feedback, st.r.b, [y]);
    assert fed.1 == [(1.0 - alpha) * y];
    assert Fused(t.right, st.r, [x * alpha]) == (FeedbackState(added.0, fed.0, None, (1.0 - alpha) * y), [y]);
  }

  lemma {:induction false} ChainIsRecurrence(alpha: real, feedback: Kind<Cell>, st: State<Cell>, previous: real,
                                             xs: seq<real>)
    requires Damps(feedback, alpha) && Fits(Chain(alpha, feedback), st) && st.MergeState? && st.r.FeedbackState?
    requires st.r.held == (1.0 - alpha) * previous
    ensures Filtered(Chain(alpha, feedback), st, xs) == Recurrence(alpha, previous, xs)
    decreases |xs|
  {
    if xs != [] {
      var t, y := Chain(alpha, feedback), NextOutput(alpha, previous, xs[0]);
      var r := Fused(t, st, [xs[0]]);
      ChainStep(alpha, feedback, st, previous, xs[0]);
      ChainIsRecurrence(alpha, feedback, r.0, y, xs[1..]);
      assert Filtered(t, st, xs) == r.1 + Filtered(t, r.0, xs[1..]);
    }
  }

  /** For every input stream both merged filters produce the output of the scalar recurrence. */
  lemma MergedFiltersEqualReference(alpha: real, xs: seq<real>)
    ensures Filtered(IirChain(alpha), Start(), xs) == Recurrence(alpha, 0.0, xs)
    ensures Filtered(IirChainSplitMerge(alpha), Start(), xs) == Recurrence(alpha, 0.0, xs)
  {
    ChainIsRecurrence(alpha, MultiplyConst(1.0 - alpha), Start(), 0.0, xs);
    var values := [1.0, -alpha];
    var paths := [MultiplyConst(1.0), MultiplyConst(-alpha)];
    forall s, y ensures SplitMergeCombine(paths, []).output(s, [y], 0) == (1.0 - alpha) * y {
      SplitScalesAddUp(values, [], s, y, 0);
      assert paths == seq(|values|, k requires 0 <= k < |values| => MultiplyConst(values[k]));
      assert Gain(values, [], 2) == 0.0;
      assert Gain(values, [], 1) == 1.0 * -alpha + Gain(values, [], 2);
      assert Gain(values, [], 0) == 1.0 * 1.0 + (1.0 * -alpha + 0.0);
    }
    ChainIsRecurrence(alpha, SplitMergeCombine(paths, []), Start(), 0.0, xs);
  }

  // --- the objects ------------------------------------------------------------------------------------

  class IirReference {
    var state: real
    const alpha: real

    constructor (alpha: real)
      ensures state == 0.0 && this.alpha == alpha
    {
      state, this.alpha := 0.0, alpha;
    }

    method ProcessOne(input: real) returns (y: real)
      modifies this
      ensures y == NextOutput(alpha, old(state), input) && state == y
    {
      state := alpha * input + (1.0 - alpha) * state;
      y := state;
    }

    method ProcessAll(xs: seq<real>) returns (ys: seq<real>)
      modifies this
      ensures ys == Recurrence(alpha, old(state), xs)
    {
      ys := [];
      for i := 0 to |xs|
        invariant ys + Recurrence(alpha, state, xs[i..]) == Recurrence(alpha, old(state), xs)
      {
        assert xs[i..][1..] == xs[i + 1..] && xs[i..][0] == xs[i];
        ghost var before := state;
        var y := ProcessOne(xs[i]);
        assert Recurrence(alpha, before, xs[i..]) == [y] + Recurrence(alpha, y, xs[i + 1..]);
        assert (ys + [y]) + Recurrence(alpha, y, xs[i + 1..]) == ys + ([y] + Recurrence(alpha, y, xs[i + 1..]));
        ys := ys + [y];
      }
    }
  }

  /** A feedback merge keeps the states of its two blocks and the sample on its way back. */
  class FeedbackMerge {
    const tree: Tree<Cell>
    var forward: State<Cell>
    var feedback: State<Cell>
    var held: real

    ghost predicate Valid()
      reads this
    {
      tree.Feedback? && tree.monitor.None? && WellTyped(tree) && Fits(tree, Abstract())
    }

    function Abstract(): State<Cell>
      reads this
    {
      FeedbackState(forward, feedback, None, held)
    }

    constructor (tree: Tree<Cell>, forward: State<Cell>, feedback: State<Cell>)
      requires tree.Feedback? && tree.monitor.None? && WellTyped(tree) && Fits(tree.forward, forward)
      requires Fits(tree.feedback, feedback)
      ensures Valid() && this.tree == tree && Abstract() == FeedbackState(forward, feedback, None, 0.0)
    {
      this.tree, this.forward, this.feedback, held := tree, forward, feedback, 0.0;
    }

    /** `processOne`: the forward block sees the held sample, the feedback block decides the next one. */
    method ProcessOne(inputs: seq<real>) returns (output: seq<real>)
      requires Valid() && |inputs| == NIn(tree)
      modifies this
      ensures Valid() && (Abstract(), output) == Fused(tree, old(Abstract()), inputs)
    {
      var (f, out) := Fused(tree.forward, forward, InsertAt(inputs, tree.loopIn, held));
      forward := f;
      var (b, back) := Fused(tree.feedback, feedback, out);
      feedback, held := b, back[0];
      output := if tree.tap then out + [held] else out;
    }
  }
}
