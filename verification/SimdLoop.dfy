/** The vectorised sample loop: whole vectors first, then ever narrower ones for what is left. */
module SimdLoop {
  import opened Arithmetic

  /** One call of the block on consecutive samples. */
  datatype Chunk = Chunk(start: nat, width: nat)

  function MainChunks(i: nat, width: nat, n: nat): seq<Chunk>
    requires width > 0
    decreases n - i
  {
    if i + width <= n then [Chunk(i, width)] + MainChunks(i + width, width, n) else []
  }

  function EpilogueChunks(i: nat, width: nat, n: nat): seq<Chunk>
    decreases width
  {
    var half := width / 2;
    if half == 0 then []
    else if i + half <= n then [Chunk(i, half)] + EpilogueChunks(i + half, half, n)
    else EpilogueChunks(i, half, n)
  }

  /** Where consecutive chunks starting at i end, if they are consecutive. */
  predicate Consecutive(chunks: seq<Chunk>, i: nat, end: nat) {
    if chunks == [] then i == end
    else chunks[0].start == i && chunks[0].width > 0 && Consecutive(chunks[1..], i + chunks[0].width, end)
  }

  function MainEnd(i: nat, width: nat, n: nat): (end: nat)
    requires width > 0
    ensures i <= n ==> end <= n < end + width
    decreases n - i
  {
    if i + width <= n then MainEnd(i + width, width, n) else i
  }

  function EpilogueEnd(i: nat, width: nat, n: nat): (end: nat)
    ensures i <= end && (i <= n ==> end <= n)
    decreases width
  {
    var half := width / 2;
    if half == 0 then i
    else if i + half <= n then EpilogueEnd(i + half, half, n)
    else EpilogueEnd(i, half, n)
  }

  function AllChunks(width: nat, n: nat): seq<Chunk>
    requires width > 0
  {
    MainChunks(0, width, n) + EpilogueChunks(MainEnd(0, width, n), width, n)
  }

  lemma {:induction false} MainConsecutive(i: nat, width: nat, n: nat, more: seq<Chunk>, end: nat)
    requires width > 0 && i <= n && Consecutive(more, MainEnd(i, width, n), end)
    ensures Consecutive(MainChunks(i, width, n) + more, i, end)
    decreases n - i
  {
    if i + width <= n {
      MainConsecutive(i + width, width, n, more, end);
      assert (MainChunks(i, width, n) + more)[1..] == MainChunks(i + width, width, n) + more;
    } else {
      assert MainChunks(i, width, n) + more == more;
    }
  }

  lemma {:induction false} EpilogueConsecutive(i: nat, width: nat, n: nat)
    requires i <= n
    ensures Consecutive(EpilogueChunks(i, width, n), i, EpilogueEnd(i, width, n))
    decreases width
  {
    var half := width / 2;
    if half > 0 {
      if i + half <= n {
        EpilogueConsecutive(i + half, half, n);
        assert EpilogueChunks(i, width, n)[1..] == EpilogueChunks(i + half, half, n);
      } else {
        EpilogueConsecutive(i, half, n);
      }
    }
  }

  lemma {:induction false} EpilogueFinishes(i: nat, width: nat, n: nat)
    requires IsPowerOfTwo(width) && i <= n < i + width
    ensures EpilogueEnd(i, width, n) == n
    decreases width
  {
    var half := width / 2;
    if half > 0 {
      EpilogueFinishes(if i + half <= n then i + half else i, half, n);
    }
  }

  /** The most samples an epilogue can take. */
  function EpilogueMost(width: nat): nat {
    if width / 2 == 0 then 0 else width / 2 + EpilogueMost(width / 2)
  }

  lemma {:induction false} EpilogueMostIs(width: nat)
    requires width > 0
    ensures EpilogueMost(width) <= width - 1
    ensures EpilogueMost(width) == width - 1 <==> IsPowerOfTwo(width)
  {
    if width > 1 { EpilogueMostIs(width / 2); }
  }

  lemma {:induction false} EpilogueTakesAtMost(i: nat, width: nat, n: nat)
    ensures EpilogueEnd(i, width, n) <= i + EpilogueMost(width)
    decreases width
  {
    var half := width / 2;
    if half > 0 { EpilogueTakesAtMost(if i + half <= n then i + half else i, half, n); }
  }

  /** The chunks are consecutive from 0, so every sample is processed at most once and in order; they end
      at n for every n exactly when the width is a power of two. */
  lemma SamplesOnceInOrder(width: nat, n: nat)
    requires width > 0
    ensures Consecutive(AllChunks(width, n), 0, EpilogueEnd(MainEnd(0, width, n), width, n))
    ensures IsPowerOfTwo(width) ==> Consecutive(AllChunks(width, n), 0, n)
  {
    var i := MainEnd(0, width, n);
    EpilogueConsecutive(i, width, n);
    MainConsecutive(0, width, n, EpilogueChunks(i, width, n), EpilogueEnd(i, width, n));
    if IsPowerOfTwo(width) { EpilogueFinishes(i, width, n); }
  }

  lemma AlwaysFinishes(width: nat)
    requires width > 0
    ensures (forall n: nat :: EpilogueEnd(MainEnd(0, width, n), width, n) == n) <==> IsPowerOfTwo(width)
  {
    if IsPowerOfTwo(width) {
      forall n: nat ensures EpilogueEnd(MainEnd(0, width, n), width, n) == n {
        EpilogueFinishes(MainEnd(0, width, n), width, n);
      }
    } else {
      var n: nat := width - 1;
      EpilogueMostIs(width);
      EpilogueTakesAtMost(0, width, n);
      assert MainEnd(0, width, n) == 0;
      assert EpilogueEnd(MainEnd(0, width, n), width, n) != n;
    }
  }

  // --- the loop -----------------------------------------------------------------------------------------

  /** A block without state that treats every lane alike. */
  method ApplyChunk<I, O>(f: I -> O, input: seq<I>, output: array<O>, i: nat, width: nat)
    requires i + width <= |input| && i + width <= output.Length
    modifies output
    ensures forall k :: 0 <= k < output.Length ==>
              output[k] == if i <= k < i + width then f(input[k]) else old(output[k])
  {
    for lane := 0 to width
      invariant forall k :: 0 <= k < output.Length ==>
                  output[k] == if i <= k < i + lane then f(input[k]) else old(output[k])
    {
      output[i + lane] := f(input[i + lane]);
    }
  }

  /** `invokeProcessOneSimd` gives what the loop over single samples gives. */
  method InvokeProcessOneSimd<I, O>(f: I -> O, input: seq<I>, output: array<O>, width: nat, n: nat)
    requires IsPowerOfTwo(width) && n <= |input| && n <= output.Length
    modifies output
    ensures forall k :: 0 <= k < output.Length ==> output[k] == if k < n then f(input[k]) else old(output[k])
  {
    var i := 0;
    while i + width <= n
      invariant i <= n
      invariant forall k :: 0 <= k < output.Length ==> output[k] == if k < i then f(input[k]) else old(output[k])
    {
      ApplyChunk(f, input, output, i, width);
      i := i + width;
    }
    Epilogue(f, input, output, i, width, n);
  }

  method Epilogue<I, O>(f: I -> O, input: seq<I>, output: array<O>, i: nat, width: nat, n: nat)
    requires IsPowerOfTwo(width) && i <= n < i + width && n <= |input| && n <= output.Length
    modifies output
    ensures forall k :: 0 <= k < output.Length ==> output[k] == if i <= k < n then f(input[k]) else old(output[k])
    decreases width
  {
    var half := width / 2;
    if half > 0 {
      var next := i;
      if i + half <= n {
        ApplyChunk(f, input, output, i, half);
        next := i + half;
      }
      Epilogue(f, input, output, next, half, n);
    }
  }

  method InvokeProcessOnePure<I, O>(f: I -> O, input: seq<I>, output: array<O>, n: nat)
    requires n <= |input| && n <= output.Length
    modifies output
    ensures forall k :: 0 <= k < output.Length ==> output[k] == if k < n then f(input[k]) else old(output[k])
  {
    for i := 0 to n
      invariant forall k :: 0 <= k < output.Length ==> output[k] == if k < i then f(input[k]) else old(output[k])
    {
      output[i] := f(input[i]);
    }
  }
}
