/** How many samples one work call takes: resampling chunks, soft requests, the stride that skips or
    overlaps input, and the limits set by tags and the end of the stream. */
module WorkSizing {
  import opened Arithmetic

  /** The largest `std::size_t`, which also stands for "no tag", "no end of stream" and "no request". */
  const UNLIMITED: nat := 0xFFFF_FFFF_FFFF_FFFF

  datatype Status = Ok | InsufficientInput | InsufficientOutput

  datatype Resampling = Resampling(input: nat, output: nat, status: Status)

  /** The block's chunk sizes and stride. Without the resampling annotation both chunk sizes are 1. */
  datatype Config = Config(resampling: bool, striding: bool, inChunk: nat, outChunk: nat, stride: nat) {
    predicate Valid() {
      inChunk >= 1 && outChunk >= 1 && (!resampling ==> inChunk == 1 && outChunk == 1)
    }

    /** The chunk sizes are 32-bit settings. */
    predicate Fits32() {
      inChunk <= 0xFFFF_FFFF && outChunk <= 0xFFFF_FFFF
    }

    predicate StrideActive() {
      striding && stride != 0 && stride != inChunk
    }

    predicate Unchunked() {
      !resampling || (inChunk == 1 && outChunk == 1)
    }
  }

  /** `std::clamp`, which is undefined for crossed bounds. */
  function Clamp(x: nat, low: nat, high: nat): nat
    requires low <= high
  {
    if x < low then low else if high < x then high else x
  }

  // --- resampling -------------------------------------------------------------------------------------

  /** k chunks respect all four bounds. */
  predicate ChunksFit(c: Config, minIn: nat, maxIn: nat, minOut: nat, maxOut: nat, k: nat) {
    minIn <= k * c.inChunk <= maxIn && minOut <= k * c.outChunk <= maxOut
  }

  lemma DivisionBound(k: nat, x: nat, c: nat)
    requires c > 0
    ensures k * c <= x <==> k <= x / c
  {
    if k <= x / c {
      assert k * c <= (x / c) * c;
    } else {
      assert k * c >= (x / c + 1) * c;
    }
  }

  lemma ProductOrdered(k: nat, m: nat, c: nat)
    requires k <= m
    ensures k * c <= m * c
  {
  }

  /** The number of chunks the upper bounds allow. */
  function MostChunks(c: Config, maxIn: nat, maxOut: nat): nat
    requires c.Valid()
  {
    if c.StrideActive() then (if c.inChunk <= maxIn && c.outChunk <= maxOut then 1 else 0)
    else Min(maxIn / c.inChunk, maxOut / c.outChunk)
  }

  lemma MostChunksFit(c: Config, maxIn: nat, maxOut: nat)
    requires c.Valid()
    ensures var n := MostChunks(c, maxIn, maxOut); n * c.inChunk <= maxIn && n * c.outChunk <= maxOut
    ensures !c.StrideActive() ==> forall k: nat ::
                                    k * c.inChunk <= maxIn && k * c.outChunk <= maxOut
                                    ==> k <= MostChunks(c, maxIn, maxOut)
  {
    var n := MostChunks(c, maxIn, maxOut);
    DivisionBound(n, maxIn, c.inChunk);
    DivisionBound(n, maxOut, c.outChunk);
    forall k: nat
      ensures k * c.inChunk <= maxIn && k * c.outChunk <= maxOut ==> k <= maxIn / c.inChunk && k <= maxOut / c.outChunk
    {
      DivisionBound(k, maxIn, c.inChunk);
      DivisionBound(k, maxOut, c.outChunk);
    }
  }

  function WithoutChunks(minIn: nat, maxIn: nat, minOut: nat, maxOut: nat, requested: nat): Resampling {
    var most := Min(maxIn, maxOut);
    if most < minIn then Resampling(0, 0, InsufficientInput)
    else if most < minOut then Resampling(0, 0, InsufficientOutput)
    else var n := Clamp(requested, Max(minIn, minOut), most); Resampling(n, n, Ok)
  }

  function ComputeResampling(c: Config, minIn: nat, maxIn: nat, minOut: nat, maxOut: nat, request: nat): Resampling
    requires c.Valid()
  {
    var requested := if request == 0 then UNLIMITED else request;
    if c.Unchunked() then WithoutChunks(minIn, maxIn, minOut, maxOut, requested)
    else
      var n := MostChunks(c, maxIn, maxOut);
      if n * c.inChunk < minIn then Resampling(0, 0, InsufficientInput)
      else if n * c.outChunk < minOut then Resampling(0, 0, InsufficientOutput)
      else if requested < n * c.inChunk then
        SoftLimitDefined(c, minIn, maxIn, maxOut, n);
        var soft := Clamp(requested, Max(minIn, c.inChunk), maxIn);
        var m := Min(soft / c.inChunk, maxOut / c.outChunk);
        if m * c.inChunk >= minIn && m * c.outChunk >= minOut then Resampling(m * c.inChunk, m * c.outChunk, Ok)
        else Resampling(n * c.inChunk, n * c.outChunk, Ok)
      else Resampling(n * c.inChunk, n * c.outChunk, Ok)
  }

  /** The clamp of a soft request never has crossed bounds. */
  lemma SoftLimitDefined(c: Config, minIn: nat, maxIn: nat, maxOut: nat, n: nat)
    requires c.Valid() && n == MostChunks(c, maxIn, maxOut) && n * c.inChunk >= minIn && n * c.inChunk > 0
    ensures Max(minIn, c.inChunk) <= maxIn
  {
    MostChunksFit(c, maxIn, maxOut);
    ProductOrdered(1, n, c.inChunk);
  }

  /** What a request counts as: never less than the minimum a call must take. */
  function Floor(c: Config, minIn: nat, minOut: nat, request: nat): nat {
    Max(if request == 0 then UNLIMITED else request, if c.Unchunked() then Max(minIn, minOut)
                                                     else Max(minIn, c.inChunk))
  }

  /** k chunks fit, take no more input than the limit, and no larger such number does. */
  ghost predicate Largest(c: Config, minIn: nat, maxIn: nat, minOut: nat, maxOut: nat, limit: nat, k: nat) {
    && ChunksFit(c, minIn, maxIn, minOut, maxOut, k) && k * c.inChunk <= limit
    && forall j: nat :: ChunksFit(c, minIn, maxIn, minOut, maxOut, j) && j * c.inChunk <= limit ==> j <= k
  }

  /** The answer is k chunks: the most that fit within the request, or the most that fit at all when
      every fitting number exceeds the request. */
  ghost predicate BestAnswer(c: Config, minIn: nat, maxIn: nat, minOut: nat, maxOut: nat, request: nat, r: Resampling,
                             k: nat) {
    var limit := Floor(c, minIn, minOut, request);
    && r.input == k * c.inChunk && r.output == k * c.outChunk
    && (Largest(c, minIn, maxIn, minOut, maxOut, limit, k)
        || (Largest(c, minIn, maxIn, minOut, maxOut, maxIn, k)
            && forall j: nat :: ChunksFit(c, minIn, maxIn, minOut, maxOut, j) ==> j * c.inChunk > limit))
  }

  /** Without an active stride, work is refused exactly when no number of chunks fits all four bounds.
      Otherwise it is the largest number of chunks within the request, if any is, and else the largest. */
  lemma ResamplingIsLargestFit(c: Config, minIn: nat, maxIn: nat, minOut: nat, maxOut: nat, request: nat)
    requires c.Valid() && !c.StrideActive()
    ensures var r := ComputeResampling(c, minIn, maxIn, minOut, maxOut, request);
            && (r.status != Ok <==> forall k: nat :: !ChunksFit(c, minIn, maxIn, minOut, maxOut, k))
            && (r.status != Ok ==> r.input == 0 && r.output == 0)
            && (r.status == Ok ==> exists k: nat :: BestAnswer(c, minIn, maxIn, minOut, maxOut, request, r, k))
  {
    if c.Unchunked() {
      UnchunkedIsLargestFit(c, minIn, maxIn, minOut, maxOut, request);
    } else {
      ChunkedIsLargestFit(c, minIn, maxIn, minOut, maxOut, request);
    }
  }

  lemma UnchunkedIsLargestFit(c: Config, minIn: nat, maxIn: nat, minOut: nat, maxOut: nat, request: nat)
    requires c.Valid() && c.Unchunked()
    ensures var r := ComputeResampling(c, minIn, maxIn, minOut, maxOut, request);
            && (r.status != Ok <==> forall k: nat :: !ChunksFit(c, minIn, maxIn, minOut, maxOut, k))
            && (r.status != Ok ==> r.input == 0 && r.output == 0)
            && (r.status == Ok ==> BestAnswer(c, minIn, maxIn, minOut, maxOut, request, r, r.input))
  {
    assert forall k: nat :: k * 1 == k;
    assert ChunksFit(c, minIn, maxIn, minOut, maxOut, Min(maxIn, maxOut))
           <==> Min(maxIn, maxOut) >= minIn && Min(maxIn, maxOut) >= minOut;
    var r := ComputeResampling(c, minIn, maxIn, minOut, maxOut, request);
    if r.status == Ok { assert BestAnswer(c, minIn, maxIn, minOut, maxOut, request, r, r.input); }
  }

  lemma ChunkedIsLargestFit(c: Config, minIn: nat, maxIn: nat, minOut: nat, maxOut: nat, request: nat)
    requires c.Valid() && !c.StrideActive() && !c.Unchunked()
    ensures var r := ComputeResampling(c, minIn, maxIn, minOut, maxOut, request);
            && (r.status != Ok <==> forall k: nat :: !ChunksFit(c, minIn, maxIn, minOut, maxOut, k))
            && (r.status != Ok ==> r.input == 0 && r.output == 0)
            && (r.status == Ok ==> exists k: nat :: BestAnswer(c, minIn, maxIn, minOut, maxOut, request, r, k))
  {
    var n, r := MostChunks(c, maxIn, maxOut), ComputeResampling(c, minIn, maxIn, minOut, maxOut, request);
    MostChunksFit(c, maxIn, maxOut);
    forall k: nat | ChunksFit(c, minIn, maxIn, minOut, maxOut, k)
      ensures k <= n && k * c.inChunk <= n * c.inChunk && k * c.outChunk <= n * c.outChunk
    {
      ProductOrdered(k, n, c.inChunk);
      ProductOrdered(k, n, c.outChunk);
    }
    if r.status == Ok {
      assert ChunksFit(c, minIn, maxIn, minOut, maxOut, n);
      SoftRequest(c, minIn, maxIn, minOut, maxOut, request, n);
    }
  }

  lemma SoftRequest(c: Config, minIn: nat, maxIn: nat, minOut: nat, maxOut: nat, request: nat, n: nat)
    requires c.Valid() && !c.StrideActive() && !c.Unchunked() && n == MostChunks(c, maxIn, maxOut)
    requires ChunksFit(c, minIn, maxIn, minOut, maxOut, n)
    requires forall k: nat :: ChunksFit(c, minIn, maxIn, minOut, maxOut, k) ==> k <= n
    ensures var r := ComputeResampling(c, minIn, maxIn, minOut, maxOut, request);
            exists k: nat :: BestAnswer(c, minIn, maxIn, minOut, maxOut, request, r, k)
  {
    var requested := if request == 0 then UNLIMITED else request;
    var floor := Floor(c, minIn, minOut, request);
    var r := ComputeResampling(c, minIn, maxIn, minOut, maxOut, request);
    if requested < n * c.inChunk {
      SoftLimitDefined(c, minIn, maxIn, maxOut, n);
      var soft := Clamp(requested, Max(minIn, c.inChunk), maxIn);
      var m := Min(soft / c.inChunk, maxOut / c.outChunk);
      DivisionBound(m, soft, c.inChunk);
      DivisionBound(m, maxOut, c.outChunk);
      forall j: nat | ChunksFit(c, minIn, maxIn, minOut, maxOut, j) && j * c.inChunk <= floor
        ensures j <= m && j * c.inChunk <= m * c.inChunk && j * c.outChunk <= m * c.outChunk
      {
        DivisionBound(j, soft, c.inChunk);
        DivisionBound(j, maxOut, c.outChunk);
        ProductOrdered(j, m, c.inChunk);
        ProductOrdered(j, m, c.outChunk);
      }
      if m * c.inChunk >= minIn && m * c.outChunk >= minOut {
        assert BestAnswer(c, minIn, maxIn, minOut, maxOut, request, r, m);
      } else {
        assert BestAnswer(c, minIn, maxIn, minOut, maxOut, request, r, n);
      }
    } else {
      assert BestAnswer(c, minIn, maxIn, minOut, maxOut, request, r, n);
    }
  }

  /** Under an active stride a call takes exactly one chunk, unless both chunk sizes are 1: then it takes
      as many samples as it can get, and the stride between them is lost. */
  lemma OneChunkUnderStride(c: Config)
    requires c.Valid() && c.StrideActive()
    ensures (forall minIn: nat, maxIn: nat, minOut: nat, maxOut: nat, request: nat ::
               var r := ComputeResampling(c, minIn, maxIn, minOut, maxOut, request);
                        r.input == 0 || r.input == c.inChunk)
       <==> !(c.inChunk == 1 && c.outChunk == 1)
  {
    if c.Unchunked() {
      var r := ComputeResampling(c, 1, 2, 1, 2, 0);
      assert r.input == 2;
    } else {
      forall minIn: nat, maxIn: nat, minOut: nat, maxOut: nat, request: nat
        ensures var r := ComputeResampling(c, minIn, maxIn, minOut, maxOut, request);
                r.input == 0 || r.input == c.inChunk
      {
        ChunkUnderStride(c, minIn, maxIn, minOut, maxOut, request);
      }
    }
  }

  lemma ChunkUnderStride(c: Config, minIn: nat, maxIn: nat, minOut: nat, maxOut: nat, request: nat)
    requires c.Valid() && c.StrideActive() && !c.Unchunked()
    ensures var r := ComputeResampling(c, minIn, maxIn, minOut, maxOut, request);
            r == Resampling(0, 0, r.status)
              || (r == Resampling(c.inChunk, c.outChunk, Ok) && c.inChunk <= maxIn && c.outChunk <= maxOut)
  {
    var requested := if request == 0 then UNLIMITED else request;
    var n := MostChunks(c, maxIn, maxOut);
    if n == 1 && c.inChunk >= minIn && c.outChunk >= minOut && requested < c.inChunk {
      SoftLimitDefined(c, minIn, maxIn, maxOut, n);
      var soft := Clamp(requested, Max(minIn, c.inChunk), maxIn);
      assert soft == c.inChunk;
      assert soft / c.inChunk == 1 by { DivisionBound(1, soft, c.inChunk); DivisionBound(2, soft, c.inChunk); }
      assert maxOut / c.outChunk >= 1 by { DivisionBound(1, maxOut, c.outChunk); }
    }
  }

  /** That many chunks respect the upper bounds; under an active stride there is at most one. */
  predicate Allowed(c: Config, maxIn: nat, maxOut: nat, k: nat) {
    k * c.inChunk <= maxIn && k * c.outChunk <= maxOut && (c.StrideActive() && !c.Unchunked() ==> k <= 1)
  }

  lemma MostAllowed(c: Config, maxIn: nat, maxOut: nat) returns (n: nat)
    requires c.Valid()
    ensures n == if c.Unchunked() then Min(maxIn, maxOut) else MostChunks(c, maxIn, maxOut)
    ensures Allowed(c, maxIn, maxOut, n)
    ensures forall k: nat :: Allowed(c, maxIn, maxOut, k) ==>
              k <= n && k * c.inChunk <= n * c.inChunk && k * c.outChunk <= n * c.outChunk
  {
    n := if c.Unchunked() then Min(maxIn, maxOut) else MostChunks(c, maxIn, maxOut);
    MostChunksFit(c, maxIn, maxOut);
    forall k: nat | Allowed(c, maxIn, maxOut, k)
      ensures k <= n && k * c.inChunk <= n * c.inChunk && k * c.outChunk <= n * c.outChunk
    {
      if c.StrideActive() && !c.Unchunked() {
        assert k == 0 || (k == 1 && c.inChunk <= maxIn && c.outChunk <= maxOut);
      }
      ProductOrdered(k, n, c.inChunk);
      ProductOrdered(k, n, c.outChunk);
    }
  }

  /** Which shortage is reported: too little input if no allowed number of chunks holds the input minimum, too
      little room if one does but none holds the output minimum. */
  lemma ShortageReported(c: Config, minIn: nat, maxIn: nat, minOut: nat, maxOut: nat, request: nat)
    requires c.Valid()
    ensures var status := ComputeResampling(c, minIn, maxIn, minOut, maxOut, request).status;
            && (status == InsufficientInput <==>
                forall k: nat :: Allowed(c, maxIn, maxOut, k) ==> k * c.inChunk < minIn)
            && (status == InsufficientOutput <==>
                && (exists k: nat :: Allowed(c, maxIn, maxOut, k) && k * c.inChunk >= minIn)
                && (forall k: nat :: Allowed(c, maxIn, maxOut, k) ==> k * c.outChunk < minOut))
  {
    hide MostChunks, Allowed;
    var n := MostAllowed(c, maxIn, maxOut);
    assert c.Unchunked() ==> n * c.inChunk == n && n * c.outChunk == n;
  }

  /** Without an active stride something is taken exactly if some number of chunks, at least one, fits. */
  lemma SomethingTaken(c: Config, minIn: nat, maxIn: nat, minOut: nat, maxOut: nat, request: nat)
    requires c.Valid() && !c.StrideActive()
    ensures ComputeResampling(c, minIn, maxIn, minOut, maxOut, request).input > 0 <==>
            exists k: nat :: k >= 1 && ChunksFit(c, minIn, maxIn, minOut, maxOut, k)
  {
    var r := ComputeResampling(c, minIn, maxIn, minOut, maxOut, request);
    ResamplingIsLargestFit(c, minIn, maxIn, minOut, maxOut, request);
    hide ComputeResampling;
    if r.status == Ok {
      var m: nat :| BestAnswer(c, minIn, maxIn, minOut, maxOut, request, r, m);
      assert ChunksFit(c, minIn, maxIn, minOut, maxOut, m);
      if r.input > 0 { assert m >= 1; }
      if k: nat :| k >= 1 && ChunksFit(c, minIn, maxIn, minOut, maxOut, k) {
        LargestTakesOne(c, minIn, maxIn, minOut, maxOut, request, r, m, k);
      }
    }
  }

  lemma LargestTakesOne(c: Config, minIn: nat, maxIn: nat, minOut: nat, maxOut: nat, request: nat, r: Resampling,
                        m: nat, k: nat)
    requires c.Valid() && BestAnswer(c, minIn, maxIn, minOut, maxOut, request, r, m)
    requires k >= 1 && ChunksFit(c, minIn, maxIn, minOut, maxOut, k)
    ensures r.input > 0
  {
    if m == 0 {
      ProductOrdered(1, k, c.inChunk);
      ProductOrdered(1, k, c.outChunk);
      assert ChunksFit(c, minIn, maxIn, minOut, maxOut, 1);
      assert false;
    }
    ProductOrdered(1, m, c.inChunk);
  }

  // --- limits of one call -----------------------------------------------------------------------------

  /** What a call finds at its synchronous ports. Distances are counted from the read position. */
  datatype Ports = Ports(minIn: nat, maxIn: nat, availIn: nat, minOut: nat, maxOut: nat, availOut: nat,
                         nextTag: nat, nextEos: nat, mergedLimit: nat)

  /** What the ports can report: sizes fit into 64 bits, and the tag at the read position itself is not the
      next one, so that the next one is at least one sample away. */
  predicate Reported(p: Ports) {
    && p.minIn <= UNLIMITED && p.maxIn <= UNLIMITED && p.availIn <= UNLIMITED && p.mergedLimit <= UNLIMITED
    && p.minOut <= UNLIMITED && p.maxOut <= UNLIMITED && p.availOut <= UNLIMITED
    && 1 <= p.nextTag <= UNLIMITED && p.nextEos <= UNLIMITED
  }

  datatype Limits = Limits(input: nat, output: nat, skip: nat, status: Status, ending: bool)

  /** How much of the remaining stride a call skips before its chunk. */
  function StrideSkip(c: Config, counter: nat, available: nat): nat {
    if c.StrideActive() && counter > 0 then Min(counter, available) else 0
  }

  /** How much a call consumes for a chunk of the given size, or 0 for "as much as it processed". */
  function StrideConsumption(c: Config, counter: nat, remaining: nat): nat {
    if c.StrideActive() && counter == 0 && remaining > 0 then Min(c.stride, remaining) else 0
  }

  function Less(a: nat, b: nat): nat {
    if a > b then a - b else 0
  }

  /** The input a call may process once the skip is taken. */
  function Processable(c: Config, p: Ports, skip: nat): nat {
    var tag := Less(p.nextTag, skip);
    var tagLimit := if tag >= p.minIn then tag else UNLIMITED;
    var decimated := if tagLimit >= c.inChunk then tagLimit else c.inChunk;
    Min(Min(Min(p.maxIn, p.mergedLimit), Min(Less(p.availIn, skip), decimated)), Less(p.nextEos, skip))
  }

  /** The processable input is the most that no bound forbids: a tag far enough away cuts it, a nearer one
      within the input chunk leaves one chunk, and one below the minimum does not count. */
  lemma ProcessableIsMost(c: Config, p: Ports, skip: nat, n: nat)
    requires c.Valid() && c.Fits32()
    ensures n <= Processable(c, p, skip) <==>
            && n <= p.maxIn && n <= p.mergedLimit && n <= Less(p.availIn, skip) && n <= Less(p.nextEos, skip)
            && n <= if Less(p.nextTag, skip) >= p.minIn then Max(Less(p.nextTag, skip), c.inChunk) else UNLIMITED
  {
  }

  /** Arithmetic on `std::size_t`. */
  function Wrapped(x: nat): nat {
    x % (UNLIMITED + 1)
  }

  function WholeChunks(c: Config, n: nat): nat
    requires c.Valid()
  {
    n / c.inChunk
  }

  predicate Ending(c: Config, p: Ports, skip: nat)
    requires c.Valid()
  {
    var eos := Less(p.nextEos, skip);
    || p.nextEos == 0 || eos < p.minIn || eos < c.inChunk
    || Wrapped(c.outChunk * WholeChunks(c, eos)) < p.minOut
  }

  /** k chunks, at least one, fit into what is left of the stream and satisfy the minima of both sides. */
  predicate FitsRest(c: Config, p: Ports, eos: nat, k: nat) {
    1 <= k && k * c.inChunk <= eos && p.minIn <= eos && p.minOut <= k * c.outChunk
  }

  /** As long as the product does not wrap, the stream is called ended exactly when what is left of it holds
      no whole number of chunks that satisfies the minima. */
  lemma EndingMeans(c: Config, p: Ports, skip: nat)
    requires c.Valid() && c.outChunk * WholeChunks(c, Less(p.nextEos, skip)) <= UNLIMITED
    ensures Ending(c, p, skip) <==> forall k: nat :: !FitsRest(c, p, Less(p.nextEos, skip), k)
  {
    hide Wrapped, WholeChunks, FitsRest;
    var eos := Less(p.nextEos, skip);
    var most := WholeChunks(c, eos);
    NoWrap(c.outChunk * most);
    MostFitsRest(c, p, eos);
    forall k: nat ensures FitsRest(c, p, eos, k) ==> FitsRest(c, p, eos, most) { FewerFitRest(c, p, eos, k); }
  }

  /** Where the product does wrap around to nothing, the stream is called ended although room is left. */
  lemma EndingWraps(c: Config, p: Ports, skip: nat, k: nat)
    requires c.Valid() && p.minOut > 0
    requires c.outChunk * WholeChunks(c, Less(p.nextEos, skip)) == k * 0x1_0000_0000_0000_0000
    ensures Ending(c, p, skip)
  {
    assert (k * (UNLIMITED + 1)) % (UNLIMITED + 1) == 0;
  }

  lemma NoWrap(x: nat)
    ensures x <= UNLIMITED ==> Wrapped(x) == x
  {
  }

  lemma MostFitsRest(c: Config, p: Ports, eos: nat)
    requires c.Valid()
    ensures FitsRest(c, p, eos, WholeChunks(c, eos)) <==>
            c.inChunk <= eos && p.minIn <= eos && p.minOut <= c.outChunk * WholeChunks(c, eos)
  {
    DivisionBound(WholeChunks(c, eos), eos, c.inChunk);
    DivisionBound(1, eos, c.inChunk);
    hide WholeChunks;
    assert WholeChunks(c, eos) * c.outChunk == c.outChunk * WholeChunks(c, eos);
  }

  lemma FewerFitRest(c: Config, p: Ports, eos: nat, k: nat)
    requires c.Valid()
    ensures FitsRest(c, p, eos, k) ==> FitsRest(c, p, eos, WholeChunks(c, eos))
  {
    var most := WholeChunks(c, eos);
    DivisionBound(k, eos, c.inChunk);
    DivisionBound(most, eos, c.inChunk);
    hide WholeChunks;
    if k <= most { ProductOrdered(k, most, c.outChunk); }
  }

  function LimitsAfterSkip(c: Config, p: Ports, skip: nat, request: nat): Limits
    requires c.Valid()
  {
    var r := ComputeResampling(c, Min(p.minIn, p.nextEos), Processable(c, p, skip), p.minOut, Min(p.maxOut, p.availOut),
                               request);
    Limits(r.input, r.output, skip, r.status, Ending(c, p, skip))
  }

  function ComputeSampleLimits(c: Config, counter: nat, p: Ports, request: nat): Limits
    requires c.Valid()
  {
    LimitsAfterSkip(c, p, StrideSkip(c, counter, Min(p.availIn, Min(p.nextTag, p.nextEos))), request)
  }

  lemma ResamplingWithinBounds(c: Config, minIn: nat, maxIn: nat, minOut: nat, maxOut: nat, request: nat)
    requires c.Valid()
    ensures var r := ComputeResampling(c, minIn, maxIn, minOut, maxOut, request); r.input <= maxIn && r.output <= maxOut
  {
    if c.StrideActive() && !c.Unchunked() {
      ChunkUnderStride(c, minIn, maxIn, minOut, maxOut, request);
    } else if c.Unchunked() {
      UnchunkedIsLargestFit(c, minIn, maxIn, minOut, maxOut, request);
    } else {
      ChunkedIsLargestFit(c, minIn, maxIn, minOut, maxOut, request);
    }
  }

  /** A call never takes more than is available or than the stream still holds, and never fills more than
      it has room for. */
  lemma ChunkWithinLimits(c: Config, counter: nat, p: Ports, request: nat)
    requires c.Valid()
    ensures var l := ComputeSampleLimits(c, counter, p, request);
            && l.skip + l.input <= p.availIn && l.skip + l.input <= p.nextEos && l.skip <= p.nextTag
            && l.input <= p.maxIn && l.input <= p.mergedLimit && l.output <= p.maxOut && l.output <= p.availOut
  {
    var skip := StrideSkip(c, counter, Min(p.availIn, Min(p.nextTag, p.nextEos)));
    ResamplingWithinBounds(c, Min(p.minIn, p.nextEos), Processable(c, p, skip), p.minOut, Min(p.maxOut, p.availOut),
                           request);
  }

  /** No call with this minimum processes samples past a tag this far away. */
  ghost predicate StopsAtTag(c: Config, minIn: nat, tag: nat)
    requires c.Valid()
  {
    forall p: Ports, request: nat ::
      Reported(p) && p.minIn == minIn && p.nextTag == tag ==> KeepsBeforeTag(c, p, request)
  }

  predicate KeepsBeforeTag(c: Config, p: Ports, request: nat)
    requires c.Valid()
  {
    var l := LimitsAfterSkip(c, p, 0, request);
    l.ending || l.input <= p.nextTag
  }

  /** The fewest chunks, at least one, that hold the minimum. */
  function ChunksFor(c: Config, minIn: nat): (k: nat)
    requires c.Valid()
    ensures k >= 1 && (k - 1) * c.inChunk < Max(1, minIn) && minIn <= k * c.inChunk && c.inChunk <= k * c.inChunk
  {
    var k := (Max(1, minIn) - 1) / c.inChunk + 1;
    DivisionBound(k - 1, Max(1, minIn) - 1, c.inChunk);
    DivisionBound(k, Max(1, minIn) - 1, c.inChunk);
    ProductOrdered(1, k, c.inChunk);
    k
  }

  /** Some call can take the minimum: that many chunks can be counted on both sides, and are one chunk
      under an active stride. */
  predicate Attainable(c: Config, minIn: nat)
    requires c.Valid()
  {
    var k := ChunksFor(c, minIn);
    k * c.inChunk <= UNLIMITED && k * c.outChunk <= UNLIMITED && (c.StrideActive() && !c.Unchunked() ==> k == 1)
  }

  /** A chunk ends at the next tag exactly when that tag is no nearer than the minimum and one input chunk,
      or when no call can take the minimum at all. */
  lemma TagEndsChunk(c: Config, minIn: nat, tag: nat)
    requires c.Valid() && c.Fits32() && minIn <= UNLIMITED && 1 <= tag <= UNLIMITED
    ensures StopsAtTag(c, minIn, tag) <==> (tag >= minIn && tag >= c.inChunk) || !Attainable(c, minIn)
  {
    hide Attainable, LimitsAfterSkip, ComputeResampling;
    if tag >= minIn && tag >= c.inChunk {
      forall p: Ports, request: nat | Reported(p) && p.minIn == minIn && p.nextTag == tag
        ensures KeepsBeforeTag(c, p, request)
      {
        TagReached(c, p, request);
      }
    } else if !Attainable(c, minIn) {
      forall p: Ports, request: nat | Reported(p) && p.minIn == minIn && p.nextTag == tag
        ensures KeepsBeforeTag(c, p, request)
      {
        LimitsCarry(c, p, 0, request);
        if !KeepsBeforeTag(c, p, request) { TakenIsAttainable(c, p, request); }
      }
    } else {
      TagPassed(c, minIn, tag);
    }
  }

  lemma TagReached(c: Config, p: Ports, request: nat)
    requires c.Valid() && p.nextTag >= p.minIn && p.nextTag >= c.inChunk
    ensures KeepsBeforeTag(c, p, request)
  {
    hide ComputeResampling, Ending;
    ResamplingWithinBounds(c, Min(p.minIn, p.nextEos), Processable(c, p, 0), p.minOut, Min(p.maxOut, p.availOut),
                           request);
  }

  lemma TakenIsAttainable(c: Config, p: Ports, request: nat)
    requires c.Valid() && Reported(p) && !Ending(c, p, 0) && LimitsAfterSkip(c, p, 0, request).input > 0
    ensures Attainable(c, p.minIn)
  {
    hide ComputeResampling, Wrapped;
    var room := Min(p.maxOut, p.availOut);
    var m := TakesChunks(c, p.minIn, Processable(c, p, 0), p.minOut, room, request);
    var k := ChunksFor(c, p.minIn);
    if k > m { ProductOrdered(m, k - 1, c.inChunk); }
    ProductOrdered(k, m, c.inChunk);
    ProductOrdered(k, m, c.outChunk);
  }

  /** What is taken is a whole number of chunks that holds the minimum. */
  lemma TakesChunks(c: Config, minIn: nat, maxIn: nat, minOut: nat, maxOut: nat, request: nat) returns (m: nat)
    requires c.Valid() && ComputeResampling(c, minIn, maxIn, minOut, maxOut, request).input > 0
    ensures 1 <= m && minIn <= m * c.inChunk <= maxIn && m * c.outChunk <= maxOut
    ensures c.StrideActive() && !c.Unchunked() ==> m == 1
  {
    var r := ComputeResampling(c, minIn, maxIn, minOut, maxOut, request);
    if c.StrideActive() && !c.Unchunked() {
      ChunkUnderStride(c, minIn, maxIn, minOut, maxOut, request);
      ChunkFitsUnderStride(c, minIn, maxIn, minOut, maxOut, request);
      m := 1;
    } else if c.Unchunked() {
      UnchunkedIsLargestFit(c, minIn, maxIn, minOut, maxOut, request);
      m := r.input;
    } else {
      ChunkedIsLargestFit(c, minIn, maxIn, minOut, maxOut, request);
      m :| BestAnswer(c, minIn, maxIn, minOut, maxOut, request, r, m);
    }
  }

  /** Exactly the fewest chunks that hold the minimum, and room for them. */
  function FewestChunks(c: Config, minIn: nat, tag: nat): Ports
    requires c.Valid()
  {
    var k := ChunksFor(c, minIn);
    Ports(minIn, k * c.inChunk, UNLIMITED, 0, k * c.outChunk, k * c.outChunk, tag, UNLIMITED, UNLIMITED)
  }

  lemma TagPassed(c: Config, minIn: nat, tag: nat)
    requires c.Valid() && c.Fits32() && minIn <= UNLIMITED && 1 <= tag <= UNLIMITED
    requires (tag < minIn || tag < c.inChunk) && Attainable(c, minIn)
    ensures !StopsAtTag(c, minIn, tag)
  {
    hide ComputeResampling, Wrapped, ChunksFor;
    var p, k := FewestChunks(c, minIn, tag), ChunksFor(c, minIn);
    if minIn <= c.inChunk && k > 1 { ProductOrdered(1, k - 1, c.inChunk); }
    assert Processable(c, p, 0) == k * c.inChunk;
    FewestTaken(c, minIn, k);
    assert !KeepsBeforeTag(c, p, 0);
  }

  lemma FewestTaken(c: Config, minIn: nat, k: nat)
    requires c.Valid() && k >= 1 && minIn <= k * c.inChunk <= UNLIMITED
    requires c.StrideActive() && !c.Unchunked() ==> k == 1
    ensures ComputeResampling(c, minIn, k * c.inChunk, 0, k * c.outChunk, 0).input == k * c.inChunk
  {
    if !c.Unchunked() {
      assert MostChunks(c, k * c.inChunk, k * c.outChunk) == k by {
        WholeQuotient(k, c.inChunk);
        WholeQuotient(k, c.outChunk);
      }
      hide MostChunks;
      ProductOrdered(1, k, c.inChunk);
    }
  }

  lemma WholeQuotient(k: nat, x: nat)
    requires x > 0
    ensures k * x / x == k
  {
    DivisionBound(k, k * x, x);
    DivisionBound(k + 1, k * x, x);
  }

  // --- the stride over a whole run --------------------------------------------------------------------

  /** One processed chunk: where it starts in the input stream and how long it is. */
  datatype Window = Window(start: nat, length: nat)

  /** The read position, the stride still to be skipped, the windows processed so far, and whether the
      stream has ended. */
  datatype Progress = Progress(position: nat, counter: nat, windows: seq<Window>, stopped: bool)

  /** A work call of a block that processes what it is given, with synchronous ports only. */
  function Work(c: Config, s: Progress, p: Ports, request: nat): Progress
    requires c.Valid()
  {
    if s.stopped then s
    else
      var l := ComputeSampleLimits(c, s.counter, p, request);
      var skipped := s.(position := s.position + l.skip, counter := s.counter - l.skip);
      if l.ending then skipped.(stopped := true)
      else if l.input == 0 then skipped
      else
        var consumed := StrideConsumption(c, skipped.counter, l.input);
        Progress(skipped.position + (if consumed > 0 then consumed else l.input),
                 if StrideSets(c, skipped.counter, l.input) then c.stride - consumed else skipped.counter,
                 skipped.windows + [Window(skipped.position, l.input)], false)
  }

  predicate StrideSets(c: Config, counter: nat, remaining: nat) {
    c.StrideActive() && counter == 0 && remaining > 0
  }

  datatype Call = Call(ports: Ports, request: nat)

  predicate AllReported(calls: seq<Call>) {
    forall i :: 0 <= i < |calls| ==> Reported(calls[i].ports)
  }

  function Run(c: Config, calls: seq<Call>): Progress
    requires c.Valid()
  {
    if calls == [] then Progress(0, 0, [], false)
    else Work(c, Run(c, calls[..|calls| - 1]), calls[|calls| - 1].ports, calls[|calls| - 1].request)
  }

  /** Every window starts at a multiple of the stride, and the next one will too. */
  predicate OnStride(c: Config, s: Progress) {
    && s.position + s.counter == |s.windows| * c.stride
    && forall k :: 0 <= k < |s.windows| ==> s.windows[k].start == k * c.stride
  }

  /** Some window is off the stride. */
  ghost predicate Misplaced(c: Config, s: Progress) {
    exists k :: 0 <= k < |s.windows| && s.windows[k].start != k * c.stride
  }

  predicate WholeWindows(c: Config, s: Progress) {
    forall k :: 0 <= k < |s.windows| ==> s.windows[k].length == c.inChunk
  }

  /** What a call skips of the remaining stride: the skip stops at the end of what has arrived, at a tag
      and at the end of the stream. */
  function Reach(p: Ports): nat {
    Min(p.availIn, Min(p.nextTag, p.nextEos))
  }

  /** After this skip there is a chunk to process and room for it, and the stream goes on. */
  predicate Runs(c: Config, p: Ports, skip: nat)
    requires c.Valid()
  {
    var input, room, minIn := Processable(c, p, skip), Min(p.maxOut, p.availOut), Min(p.minIn, p.nextEos);
    && !Ending(c, p, skip)
    && if c.Unchunked() then 1 <= Min(input, room) && Max(minIn, p.minOut) <= Min(input, room)
       else minIn <= c.inChunk <= input && p.minOut <= c.outChunk <= room
  }

  lemma ChunkRuns(c: Config, p: Ports, skip: nat, request: nat)
    requires c.Valid() && c.StrideActive()
    ensures var l := LimitsAfterSkip(c, p, skip, request);
            && (!l.ending && l.input > 0 <==> Runs(c, p, skip))
            && (Runs(c, p, skip) && !c.Unchunked() ==> l.input == c.inChunk)
  {
    hide ComputeResampling, Processable, Ending;
    var input, room, minIn := Processable(c, p, skip), Min(p.maxOut, p.availOut), Min(p.minIn, p.nextEos);
    if c.Unchunked() {
      SamplesFit(c, minIn, input, p.minOut, room, request);
    } else {
      ChunkFitsUnderStride(c, minIn, input, p.minOut, room, request);
    }
  }

  lemma SamplesFit(c: Config, minIn: nat, maxIn: nat, minOut: nat, maxOut: nat, request: nat)
    requires c.Valid() && c.Unchunked()
    ensures ComputeResampling(c, minIn, maxIn, minOut, maxOut, request).input > 0
       <==> 1 <= Min(maxIn, maxOut) && Max(minIn, minOut) <= Min(maxIn, maxOut)
  {
  }

  lemma ChunkFitsUnderStride(c: Config, minIn: nat, maxIn: nat, minOut: nat, maxOut: nat, request: nat)
    requires c.Valid() && c.StrideActive() && !c.Unchunked()
    ensures ComputeResampling(c, minIn, maxIn, minOut, maxOut, request).input
            == if minIn <= c.inChunk <= maxIn && minOut <= c.outChunk <= maxOut then c.inChunk else 0
  {
    ChunkUnderStride(c, minIn, maxIn, minOut, maxOut, request);
    var n := MostChunks(c, maxIn, maxOut);
    assert n * c.inChunk == (if n == 1 then c.inChunk else 0) && n * c.outChunk == (if n == 1 then c.outChunk else 0);
  }

  /** A chunk that runs has input left after the skip, before the end of what has arrived and of the stream. */
  lemma RunsWithin(c: Config, p: Ports, skip: nat)
    requires c.Valid() && Runs(c, p, skip)
    ensures skip < p.availIn && skip < p.nextEos
  {
    hide Wrapped;
  }

  /** Under an active stride a call completes a window exactly when, after the skip, a chunk runs; it is one
      input chunk long unless both chunk sizes are 1. Otherwise the call only skips, or ends the stream. */
  lemma WindowCompletes(c: Config, s: Progress, p: Ports, request: nat)
    requires c.Valid() && c.StrideActive() && !s.stopped
    ensures var t, skip := Work(c, s, p, request), Min(s.counter, Reach(p));
            && (!Runs(c, p, skip) ==>
                  t == Progress(s.position + skip, s.counter - skip, s.windows, Ending(c, p, skip)))
            && (Runs(c, p, skip) ==>
                  && |t.windows| == |s.windows| + 1 && t.windows == s.windows + [t.windows[|s.windows|]]
                  && t.windows[|s.windows|].start == s.position + skip && t.windows[|s.windows|].length >= 1
                  && (!c.Unchunked() ==> t.windows[|s.windows|].length == c.inChunk)
                  && t.windows[|s.windows|].length <= p.maxIn && !t.stopped
                  && t.counter == (if skip < s.counter then s.counter - skip
                                   else c.stride - Min(c.stride, t.windows[|s.windows|].length))
                  && (if skip < s.counter then t.position == s.position + skip + t.windows[|s.windows|].length
                      else t.position + t.counter == s.position + skip + c.stride))
  {
    hide Runs, LimitsAfterSkip, Ending;
    var skip := Min(s.counter, Reach(p));
    ChunkRuns(c, p, skip, request);
    LimitsCarry(c, p, skip, request);
    ChunkWithinLimits(c, s.counter, p, request);
  }

  lemma LimitsCarry(c: Config, p: Ports, skip: nat, request: nat)
    requires c.Valid()
    ensures var l := LimitsAfterSkip(c, p, skip, request); l.skip == skip && l.ending == Ending(c, p, skip)
    ensures var l := LimitsAfterSkip(c, p, skip, request);
            Resampling(l.input, l.output, l.status)
            == ComputeResampling(c, Min(p.minIn, p.nextEos), Processable(c, p, skip), p.minOut,
                                 Min(p.maxOut, p.availOut), request)
  {
    hide ComputeResampling, Ending;
  }

  /** Without an active stride nothing is skipped: what is processed starts at the read position and is
      consumed, all of it and nothing else. */
  lemma WorkWithoutStride(c: Config, s: Progress, p: Ports, request: nat)
    requires c.Valid() && !c.StrideActive() && !s.stopped
    ensures var t, l := Work(c, s, p, request), LimitsAfterSkip(c, p, 0, request);
            t == if Ending(c, p, 0) then s.(stopped := true)
                 else if l.input == 0 then s
                 else s.(position := s.position + l.input, windows := s.windows + [Window(s.position, l.input)])
  {
    hide ComputeResampling, Ending, Processable;
  }

  /** Without an active stride a call takes something exactly if the stream goes on and some number of chunks
      fits what is processable, the room and both minima; and what it takes is the best answer to the request. */
  lemma WorkTakesBest(c: Config, s: Progress, p: Ports, request: nat)
    requires c.Valid() && !c.StrideActive() && !s.stopped
    ensures var t := Work(c, s, p, request);
            var most, room, minIn := Processable(c, p, 0), Min(p.maxOut, p.availOut), Min(p.minIn, p.nextEos);
            && (t.windows != s.windows <==>
                !Ending(c, p, 0) && exists k: nat :: k >= 1 && ChunksFit(c, minIn, most, p.minOut, room, k))
            && (t.windows != s.windows ==> exists r: Resampling, k: nat ::
                  BestAnswer(c, minIn, most, p.minOut, room, request, r, k) && t.position == s.position + r.input)
  {
    hide ComputeResampling, Ending, Processable, BestAnswer, ChunksFit, Work;
    var most, room, minIn := Processable(c, p, 0), Min(p.maxOut, p.availOut), Min(p.minIn, p.nextEos);
    var l := LimitsAfterSkip(c, p, 0, request);
    var r := ComputeResampling(c, minIn, most, p.minOut, room, request);
    WorkWithoutStride(c, s, p, request);
    SomethingTaken(c, minIn, most, p.minOut, room, request);
    ResamplingIsLargestFit(c, minIn, most, p.minOut, room, request);
    assert l.input == r.input;
    assert Work(c, s, p, request).windows != s.windows ==> r.input > 0;
    if l.input > 0 {
      assert s.windows + [Window(s.position, l.input)] != s.windows;
    }
  }

  /** Each window starts where the one before it ends, the first at 0, and the last ends here. */
  ghost predicate Tiles(windows: seq<Window>, end: nat)
    decreases |windows|
  {
    if windows == [] then end == 0
    else
      var last := windows[|windows| - 1];
      last.length >= 1 && end == last.start + last.length && Tiles(windows[..|windows| - 1], last.start)
  }

  /** Without an active stride the windows of any run tile the stream up to the read position. */
  lemma {:induction false} RunTiles(c: Config, calls: seq<Call>)
    requires c.Valid() && !c.StrideActive()
    ensures Tiles(Run(c, calls).windows, Run(c, calls).position)
  {
    if calls != [] {
      var before, last := Run(c, calls[..|calls| - 1]), calls[|calls| - 1];
      RunTiles(c, calls[..|calls| - 1]);
      hide Work, LimitsAfterSkip, Ending;
      if before.stopped {
        StoppedStays(c, before, last.ports, last.request);
      } else {
        WorkWithoutStride(c, before, last.ports, last.request);
        var w := Window(before.position, LimitsAfterSkip(c, last.ports, 0, last.request).input);
        assert (before.windows + [w])[..|before.windows|] == before.windows;
      }
    }
  }

  predicate Holds(w: Window, n: nat) {
    w.start <= n < w.start + w.length
  }

  /** Every sample before the end is in exactly one of the windows that tile the stream. */
  lemma {:induction false} TilesHoldOnce(windows: seq<Window>, end: nat, n: nat) returns (k: nat)
    requires Tiles(windows, end) && n < end
    ensures k < |windows| && Holds(windows[k], n)
    ensures forall j :: 0 <= j < |windows| && Holds(windows[j], n) ==> j == k
    decreases |windows|
  {
    var front, last := windows[..|windows| - 1], windows[|windows| - 1];
    TilesBefore(front, last.start);
    assert forall j :: 0 <= j < |front| ==> windows[j] == front[j];
    if n < last.start { k := TilesHoldOnce(front, last.start, n); } else { k := |front|; }
  }

  lemma {:induction false} TilesBefore(windows: seq<Window>, end: nat)
    requires Tiles(windows, end)
    ensures forall j :: 0 <= j < |windows| ==> windows[j].start + windows[j].length <= end
    decreases |windows|
  {
    if windows != [] { TilesBefore(windows[..|windows| - 1], windows[|windows| - 1].start); }
  }

  /** A tag lies in the rest of the stride, has arrived before the end of the stream, and a chunk runs
      right at it. */
  predicate TagSplitsGap(c: Config, s: Progress, p: Ports)
    requires c.Valid()
  {
    !s.stopped && p.nextTag < s.counter && p.nextTag < p.availIn && p.nextTag < p.nextEos && Runs(c, p, p.nextTag)
  }

  /** A work call keeps the stride exactly when no tag splits the gap, whatever else arrives. */
  lemma WorkKeepsStride(c: Config, s: Progress, p: Ports, request: nat)
    requires c.Valid() && c.StrideActive() && OnStride(c, s)
    ensures OnStride(c, Work(c, s, p, request)) <==> !TagSplitsGap(c, s, p)
    ensures TagSplitsGap(c, s, p) ==> Misplaced(c, Work(c, s, p, request))
  {
    hide Runs, Work, Ending;
    var t, skip, n := Work(c, s, p, request), Min(s.counter, Reach(p)), |s.windows|;
    if s.stopped {
      StoppedStays(c, s, p, request);
    } else {
      WindowCompletes(c, s, p, request);
      if Runs(c, p, skip) {
        RunsWithin(c, p, skip);
        NextMultiple(n, c.stride);
        if skip < s.counter {
          assert t.windows[n].start != n * c.stride;
        }
      }
    }
  }

  lemma StoppedStays(c: Config, s: Progress, p: Ports, request: nat)
    requires c.Valid() && s.stopped
    ensures Work(c, s, p, request) == s
  {
  }

  lemma NextMultiple(n: nat, stride: nat)
    ensures (n + 1) * stride == n * stride + stride
  {
  }

  /** A stride of 0 or of one chunk is no stride: a block does the same with and without it. */
  lemma {:induction false} DefaultStride(c: Config, calls: seq<Call>)
    requires c.Valid() && (c.stride == 0 || c.stride == c.inChunk)
    ensures Run(c, calls) == Run(c.(striding := false), calls)
  {
    if calls != [] {
      var front, last := calls[..|calls| - 1], calls[|calls| - 1];
      DefaultStride(c, front);
      SameWork(c, Run(c, front), last.ports, last.request);
    }
  }

  lemma SameWork(c: Config, s: Progress, p: Ports, request: nat)
    requires c.Valid() && (c.stride == 0 || c.stride == c.inChunk)
    ensures Work(c, s, p, request) == Work(c.(striding := false), s, p, request)
  {
    hide ComputeResampling, Processable;
    var d := c.(striding := false);
    SameResampling(c, Min(p.minIn, p.nextEos), Processable(c, p, 0), p.minOut, Min(p.maxOut, p.availOut), request);
    assert Processable(c, p, 0) == Processable(d, p, 0) by { SameProcessable(c, p); }
    assert Ending(c, p, 0) == Ending(d, p, 0);
    assert LimitsAfterSkip(c, p, 0, request) == LimitsAfterSkip(d, p, 0, request);
  }

  lemma SameProcessable(c: Config, p: Ports)
    ensures Processable(c, p, 0) == Processable(c.(striding := false), p, 0)
  {
  }

  lemma SameResampling(c: Config, minIn: nat, maxIn: nat, minOut: nat, maxOut: nat, request: nat)
    requires c.Valid() && (c.stride == 0 || c.stride == c.inChunk)
    ensures ComputeResampling(c, minIn, maxIn, minOut, maxOut, request)
            == ComputeResampling(c.(striding := false), minIn, maxIn, minOut, maxOut, request)
  {
    assert MostChunks(c, maxIn, maxOut) == MostChunks(c.(striding := false), maxIn, maxOut);
  }

  /** A work call never takes a window back. */
  lemma WorkKeepsWindows(c: Config, s: Progress, p: Ports, request: nat)
    requires c.Valid() && c.StrideActive()
    ensures s.windows <= Work(c, s, p, request).windows
    ensures !c.Unchunked() && WholeWindows(c, s) ==> WholeWindows(c, Work(c, s, p, request))
  {
    hide Runs, Work, Ending;
    if s.stopped {
      StoppedStays(c, s, p, request);
    } else {
      WindowCompletes(c, s, p, request);
    }
  }

  /** No call of a run meets a tag that splits the gap. */
  predicate NeverSplit(c: Config, calls: seq<Call>)
    requires c.Valid()
  {
    calls == [] ||
    (NeverSplit(c, calls[..|calls| - 1]) && !TagSplitsGap(c, Run(c, calls[..|calls| - 1]), calls[|calls| - 1].ports))
  }

  /** Whatever arrives, whatever room there is, wherever the stream ends: a run keeps the stride exactly
      when no tag splits a gap, and its windows are whole chunks unless both chunk sizes are 1. */
  lemma {:induction false} RunKeepsStride(c: Config, calls: seq<Call>)
    requires c.Valid() && c.StrideActive()
    ensures OnStride(c, Run(c, calls)) <==> NeverSplit(c, calls)
    ensures !NeverSplit(c, calls) ==> Misplaced(c, Run(c, calls))
    ensures !c.Unchunked() ==> WholeWindows(c, Run(c, calls))
  {
    hide Work, TagSplitsGap;
    if calls != [] {
      var front, last := calls[..|calls| - 1], calls[|calls| - 1];
      RunKeepsStride(c, front);
      WorkKeepsWindows(c, Run(c, front), last.ports, last.request);
      if OnStride(c, Run(c, front)) { WorkKeepsStride(c, Run(c, front), last.ports, last.request); }
    }
  }

  /** Every window of every run is exactly one input chunk long, except with both chunk sizes 1. */
  lemma WindowsAreChunks(c: Config)
    requires c.Valid() && c.StrideActive()
    ensures (forall calls: seq<Call> :: AllReported(calls) ==> WholeWindows(c, Run(c, calls))) <==> !c.Unchunked()
  {
    if c.Unchunked() {
      var call := Call(Ports(1, 2, 2, 1, 2, 2, UNLIMITED, UNLIMITED, UNLIMITED), 0);
      LongWindow(c, call);
      assert AllReported([call]) && !WholeWindows(c, Run(c, [call]));
    } else {
      forall calls: seq<Call> ensures WholeWindows(c, Run(c, calls)) { RunKeepsStride(c, calls); }
    }
  }

  lemma LongWindow(c: Config, call: Call)
    requires c.Valid() && c.StrideActive() && c.Unchunked()
    requires call == Call(Ports(1, 2, 2, 1, 2, 2, UNLIMITED, UNLIMITED, UNLIMITED), 0)
    ensures var s := Run(c, [call]); |s.windows| == 1 && s.windows[0].length == 2
  {
    assert [call][..0] == [];
    assert Run(c, []) == Progress(0, 0, [], false);
    var p := call.ports;
    assert Processable(c, p, 0) == 2 && !Ending(c, p, 0);
    assert LimitsAfterSkip(c, p, 0, 0).input == 2;
    hide LimitsAfterSkip;
    assert ComputeSampleLimits(c, 0, p, 0) == LimitsAfterSkip(c, p, 0, 0);
  }

  /** Every run keeps the stride exactly when the stride is at most one sample longer than the chunk: a gap
      of one sample has no tag inside, for the next tag is at least one sample away. */
  lemma ShortGapNeverSplit(c: Config)
    requires c.Valid() && c.Fits32() && c.StrideActive()
    ensures (forall calls: seq<Call> :: AllReported(calls) ==> OnStride(c, Run(c, calls)))
            <==> c.stride <= c.inChunk + 1
  {
    hide OnStride, Run;
    if c.stride <= c.inChunk + 1 {
      forall calls: seq<Call> | AllReported(calls) ensures OnStride(c, Run(c, calls)) {
        ShortGap(c, calls);
        RunKeepsStride(c, calls);
      }
    } else {
      var calls := TagInGap(c);
    }
  }

  lemma {:induction false} ShortGap(c: Config, calls: seq<Call>)
    requires c.Valid() && c.StrideActive() && c.stride <= c.inChunk + 1 && AllReported(calls)
    ensures Run(c, calls).counter <= 1 && NeverSplit(c, calls)
  {
    hide Work, Runs, Ending;
    if calls != [] {
      var before, last := Run(c, calls[..|calls| - 1]), calls[|calls| - 1];
      ShortGap(c, calls[..|calls| - 1]);
      if before.stopped {
        StoppedStays(c, before, last.ports, last.request);
      } else {
        WindowCompletes(c, before, last.ports, last.request);
      }
    }
  }

  /** Ports with this much input, room for one chunk, and no end of the stream in sight. */
  function OneChunkPorts(c: Config, available: nat, nextTag: nat): Ports {
    Ports(1, c.inChunk, available, 0, c.outChunk, c.outChunk, nextTag, UNLIMITED, c.inChunk)
  }

  lemma OneChunkRuns(c: Config)
    requires c.Valid() && c.Fits32()
    ensures Runs(c, OneChunkPorts(c, c.inChunk, UNLIMITED), 0)
    ensures Runs(c, OneChunkPorts(c, c.inChunk + 1, 1), 1)
  {
    hide Wrapped;
  }

  /** In a longer gap a tag on its second sample splits it: the second window starts there. */
  lemma TagInGap(c: Config) returns (calls: seq<Call>)
    requires c.Valid() && c.Fits32() && c.StrideActive() && c.stride > c.inChunk + 1
    ensures AllReported(calls) && !OnStride(c, Run(c, calls))
    ensures calls == [Call(OneChunkPorts(c, c.inChunk, UNLIMITED), 0), Call(OneChunkPorts(c, c.inChunk + 1, 1), 0)]
  {
    hide Work, Runs, Ending;
    var first, second := OneChunkPorts(c, c.inChunk, UNLIMITED), OneChunkPorts(c, c.inChunk + 1, 1);
    calls := [Call(first, 0), Call(second, 0)];
    OneChunkRuns(c);
    var none := Run(c, []);
    WindowCompletes(c, none, first, 0);
    var once := Work(c, none, first, 0);
    assert calls[..1][..0] == [] && calls[..1] == [Call(first, 0)];
    assert Run(c, calls[..1]) == once;
    assert TagSplitsGap(c, once, second);
    RunKeepsStride(c, calls);
  }

  // --- the block's own counter ------------------------------------------------------------------------

  class StridedBlock {
    const config: Config
    var strideCounter: nat
    var position: nat
    var stopped: bool
    ghost var windows: seq<Window>

    ghost function State(): Progress
      reads this
    {
      Progress(position, strideCounter, windows, stopped)
    }

    constructor (c: Config)
      requires c.Valid()
      ensures config == c && State() == Run(c, [])
    {
      config, strideCounter, position, stopped, windows := c, 0, 0, false, [];
    }

    /** The counter goes down by what is skipped; it is used up, or all that is available is skipped. */
    method InputSamplesToSkipBeforeNextChunk(available: nat) returns (toSkip: nat)
      modifies this`strideCounter
      ensures toSkip + strideCounter == old(strideCounter) && toSkip <= available
      ensures if config.StrideActive() then strideCounter == 0 || toSkip == available else toSkip == 0
    {
      toSkip := 0;
      if config.StrideActive() && strideCounter > 0 {
        toSkip := Min(strideCounter, available);
        strideCounter := strideCounter - toSkip;
      }
    }

    /** At the start of a stride its length is what is consumed and what is left to skip, and there is
        something left only if everything was consumed. Within a stride nothing is prescribed. */
    method InputSamplesToConsume(remaining: nat) returns (toConsume: nat)
      modifies this`strideCounter
      ensures if config.StrideActive() && old(strideCounter) == 0 && remaining > 0
              then toConsume + strideCounter == config.stride && toConsume <= remaining
                   && (strideCounter == 0 || toConsume == remaining)
              else toConsume == 0 && strideCounter == old(strideCounter)
    {
      toConsume := 0;
      if config.StrideActive() && strideCounter == 0 && remaining > 0 {
        toConsume := Min(config.stride, remaining);
        strideCounter := config.stride - toConsume;
      }
    }

    /** One call of `work`. Together with the constructor this makes every history of the block a `Run`. */
    method DoWork(p: Ports, request: nat)
      requires config.Valid()
      modifies this
      ensures State() == Work(config, old(State()), p, request)
    {
      hide LimitsAfterSkip, Config.Valid;
      if stopped { return; }
      var skip := InputSamplesToSkipBeforeNextChunk(Min(p.availIn, Min(p.nextTag, p.nextEos)));
      var l := LimitsAfterSkip(config, p, skip, request);
      LimitsCarry(config, p, skip, request);
      position := position + skip;
      if l.ending {
        stopped := true;
        return;
      }
      if l.input == 0 { return; }
      windows := windows + [Window(position, l.input)];
      var consumed := InputSamplesToConsume(l.input);
      position := position + (if consumed > 0 then consumed else l.input);
    }
  }
}
