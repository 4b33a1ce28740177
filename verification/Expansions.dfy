/** Every combination of one value per group, and the batches of combinations the generated files hold. */
module Expansions {
  function Count<T>(groups: seq<seq<T>>): nat {
    if groups == [] then 1 else Count(groups[..|groups| - 1]) * |groups[|groups| - 1]|
  }

  function Quotient(r: nat, n: nat): nat
    requires n > 0
  {
    r / n
  }

  function Remainder(r: nat, n: nat): nat
    requires n > 0
  {
    r % n
  }

  lemma ProductGrows(a: nat, b: nat, n: nat)
    ensures a <= b ==> a * n <= b * n
  {
  }

  lemma DigitsFit(r: nat, rows: nat, n: nat)
    requires r < rows * n
    ensures n > 0 && Quotient(r, n) < rows && Remainder(r, n) < n
  {
    assert n == 0 ==> rows * n == 0;
    QuotientBelow(r / n, r % n, n, rows);
  }

  lemma QuotientBelow(q: nat, m: nat, n: nat, rows: nat)
    requires q * n + m < rows * n
    ensures q < rows
  {
    ProductGrows(rows, q, n);
  }

  lemma Digits(q: nat, m: nat, n: nat)
    requires m < n
    ensures Quotient(q * n + m, n) == q && Remainder(q * n + m, n) == m
  {
    DigitsUnique(q, m, (q * n + m) / n, (q * n + m) % n, n);
  }

  lemma DigitsUnique(q: nat, m: nat, p: nat, k: nat, n: nat)
    requires m < n && k < n && q * n + m == p * n + k
    ensures q == p && m == k
  {
    ProductGrows(q + 1, p, n);
    ProductGrows(p + 1, q, n);
  }

  /** The r-th combination: the value for the last group goes by r's last digit in the mixed radix of the
      group sizes, the others by the digits before it. */
  function Row<T>(groups: seq<seq<T>>, r: nat): (row: seq<T>)
    requires r < Count(groups)
    ensures |row| == |groups| && forall k :: 0 <= k < |groups| ==> row[k] in groups[k]
  {
    if groups == [] then []
    else
      var front, last := groups[..|groups| - 1], groups[|groups| - 1];
      DigitsFit(r, Count(front), |last|);
      Row(front, Quotient(r, |last|)) + [last[Remainder(r, |last|)]]
  }

  function Continuation<T>(rows: seq<seq<T>>, group: seq<T>, i: nat): seq<T>
    requires i < |rows| * |group|
  {
    DigitsFit(i, |rows|, |group|);
    rows[Quotient(i, |group|)] + [group[Remainder(i, |group|)]]
  }

  lemma ContinuationAt<T>(rows: seq<seq<T>>, group: seq<T>, p: nat, v: nat)
    requires p < |rows| && v < |group|
    ensures p * |group| + v < |rows| * |group| && Continuation(rows, group, p * |group| + v) == rows[p] + [group[v]]
  {
    ProductGrows(p + 1, |rows|, |group|);
    Digits(p, v, |group|);
  }

  /** The combinations of the first groups, each continued by every value of one more group. */
  method Continued<T>(rows: seq<seq<T>>, group: seq<T>) returns (r: seq<seq<T>>)
    ensures |r| == |rows| * |group|
    ensures forall i :: 0 <= i < |r| ==> r[i] == Continuation(rows, group, i)
  {
    hide Continuation;
    r := [];
    for p := 0 to |rows|
      invariant |r| == p * |group| <= |rows| * |group|
      invariant forall i :: 0 <= i < |r| ==> r[i] == Continuation(rows, group, i)
    {
      ProductGrows(p + 1, |rows|, |group|);
      for v := 0 to |group|
        invariant |r| == p * |group| + v <= |rows| * |group|
        invariant forall i :: 0 <= i < |r| ==> r[i] == Continuation(rows, group, i)
      {
        ContinuationAt(rows, group, p, v);
        r := r + [rows[p] + [group[v]]];
      }
    }
  }

  /** `cartesianProduct`: as many combinations as the product of the group sizes, in mixed-radix order
      with the last group running fastest. */
  method CartesianProduct<T>(groups: seq<seq<T>>) returns (r: seq<seq<T>>)
    ensures |r| == Count(groups) && forall i :: 0 <= i < |r| ==> r[i] == Row(groups, i)
  {
    r := [[]];
    for g := 0 to |groups|
      invariant |r| == Count(groups[..g]) && forall i :: 0 <= i < |r| ==> r[i] == Row(groups[..g], i)
    {
      ghost var before, prefix := r, groups[..g + 1];
      assert prefix[..|prefix| - 1] == groups[..g] && prefix[|prefix| - 1] == groups[g];
      r := Continued(r, groups[g]);
      forall i | 0 <= i < |r| ensures r[i] == Row(prefix, i) { DigitsFit(i, |before|, |groups[g]|); }
    }
    assert groups[..|groups|] == groups;
  }

  /** Different row numbers pick different positions, so no combination of positions comes twice. */
  function Positions<T>(groups: seq<seq<T>>, r: nat): (ps: seq<nat>)
    requires r < Count(groups)
    ensures |ps| == |groups| && forall k ::
                                  0 <= k < |groups| ==> ps[k] < |groups[k]| && Row(groups, r)[k] == groups[k][ps[k]]
  {
    if groups == [] then []
    else
      var front, last := groups[..|groups| - 1], groups[|groups| - 1];
      DigitsFit(r, Count(front), |last|);
      Positions(front, Quotient(r, |last|)) + [Remainder(r, |last|)]
  }

  lemma {:induction false} PositionsDiffer<T>(groups: seq<seq<T>>, r: nat, s: nat)
    requires r < Count(groups) && s < Count(groups)
    ensures Positions(groups, r) == Positions(groups, s) ==> r == s
  {
    if groups != [] {
      var front, n := groups[..|groups| - 1], |groups[|groups| - 1]|;
      PositionsSplit(groups, r);
      PositionsSplit(groups, s);
      PositionsDiffer(front, Quotient(r, n), Quotient(s, n));
      hide Count, Row, Positions, Quotient, Remainder;
      AppendInjective(Positions(front, Quotient(r, n)), Remainder(r, n), Positions(front, Quotient(s, n)),
                      Remainder(s, n));
      SameDigits(r, s, n);
    }
  }

  lemma PositionsSplit<T>(groups: seq<seq<T>>, r: nat)
    requires groups != [] && r < Count(groups)
    ensures var front, n := groups[..|groups| - 1], |groups[|groups| - 1]|;
            n > 0 && Quotient(r, n) < Count(front)
              && Positions(groups, r) == Positions(front, Quotient(r, n)) + [Remainder(r, n)]
  {
    DigitsFit(r, Count(groups[..|groups| - 1]), |groups[|groups| - 1]|);
    hide Row, Quotient, Remainder;
  }

  lemma AppendInjective<T>(a: seq<T>, x: T, b: seq<T>, y: T)
    requires |a| == |b|
    ensures a + [x] == b + [y] ==> a == b && x == y
  {
    if a + [x] == b + [y] {
      assert a == (a + [x])[..|a|] && b == (b + [y])[..|a|];
      assert x == (a + [x])[|a|] && y == (b + [y])[|a|];
    }
  }

  lemma SameDigits(r: nat, s: nat, n: nat)
    requires n > 0
    ensures Quotient(r, n) == Quotient(s, n) && Remainder(r, n) == Remainder(s, n) ==> r == s
  {
    assert r == n * (r / n) + r % n && s == n * (s / n) + s % n;
  }

  /** Every choice of one position per group is some row's. */
  lemma {:induction false} EveryChoiceHasRow<T>(groups: seq<seq<T>>, ps: seq<nat>) returns (r: nat)
    requires |ps| == |groups| && forall k :: 0 <= k < |groups| ==> ps[k] < |groups[k]|
    ensures r < Count(groups) && Positions(groups, r) == ps
  {
    if groups == [] {
      r := 0;
    } else {
      var front, last := groups[..|groups| - 1], groups[|groups| - 1];
      var q := EveryChoiceHasRow(front, ps[..|ps| - 1]);
      var v := ps[|ps| - 1];
      r := q * |last| + v;
      RowNumber(q, v, |last|, Count(front));
      PositionsSplit(groups, r);
      hide Count, Row, Positions, Quotient, Remainder;
      assert ps == ps[..|ps| - 1] + [v];
    }
  }

  lemma RowNumber(q: nat, v: nat, n: nat, rows: nat)
    requires q < rows && v < n
    ensures q * n + v < rows * n && Quotient(q * n + v, n) == q && Remainder(q * n + v, n) == v
  {
    Digits(q, v, n);
    ProductGrows(q + 1, rows, n);
  }

  // --- batches --------------------------------------------------------------------------------------------

  function Flattened<T>(batches: seq<seq<T>>): seq<T> {
    if batches == [] then [] else Flattened(batches[..|batches| - 1]) + batches[|batches| - 1]
  }

  /** The batches hold all combinations in order; each but the last is full. */
  method Batches<T>(combos: seq<T>, size: nat) returns (batches: seq<seq<T>>)
    requires size >= 1
    ensures Flattened(batches) == combos
    ensures forall b :: 0 <= b < |batches| ==> 1 <= |batches[b]| <= size && (b < |batches| - 1 ==> |batches[b]| == size)
  {
    batches := [];
    var batchStart := 0;
    while batchStart < |combos|
      invariant Flattened(batches) == combos[..if batchStart < |combos| then batchStart else |combos|]
      invariant forall b ::
                  0 <= b < |batches| ==> 1 <= |batches[b]| <= size && (b < |batches| - 1 ==> |batches[b]| == size)
      invariant batchStart < |combos| ==> forall b :: 0 <= b < |batches| ==> |batches[b]| == size
      decreases |combos| - batchStart
    {
      var batchEnd := if batchStart + size < |combos| then batchStart + size else |combos|;
      var batch := [];
      for combo := batchStart to batchEnd
        invariant batch == combos[batchStart..combo]
      {
        batch := batch + [combos[combo]];
      }
      assert (batches + [batch])[..|batches|] == batches;
      assert combos[..batchStart] + combos[batchStart..batchEnd] == combos[..batchEnd];
      batches := batches + [batch];
      batchStart := batchStart + size;
    }
    assert combos[..|combos|] == combos;
  }
}
