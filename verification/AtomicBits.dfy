/** A bitset in 64-bit words: setting a range word by word with masks, by one caller and by any number of
    interleaved callers that retry with compare-and-exchange. */
module AtomicBits {
  import opened Options
  import opened WordBits

  const BITS: nat := 64

  /** One atomic change of one word: the masked bits, or the whole word. */
  datatype WordOp = Masked(word: nat, mask: nat, value: bool) | Whole(word: nat, value: bool) {
    predicate Fits() {
      Masked? ==> mask < Pow2(BITS)
    }

    predicate Touches(bit: nat) {
      Whole? || Bit(mask, bit)
    }

    predicate Covers(k: nat) {
      k / BITS == word && Touches(k % BITS)
    }

    function Apply(w: nat): nat
      requires Fits()
    {
      match this
      case Masked(_, mask, value) => if value then Or(w, mask) else And(w, Not(mask, BITS))
      case Whole(_, value) => if value then Pow2(BITS) - 1 else 0
    }
  }

  lemma ApplyBit(op: WordOp, w: nat, i: nat)
    requires op.Fits() && w < Pow2(BITS) && i < BITS
    ensures Bit(op.Apply(w), i) == if op.Touches(i) then op.value else Bit(w, i)
    ensures op.Apply(w) < Pow2(BITS)
  {
    hide Pow2, Bit, And, Or;
    match op
    case Masked(_, mask, value) =>
      OrBits(w, mask, i);
      OrFits(w, mask, BITS);
      NotBits(mask, BITS, i);
      AndBits(w, Not(mask, BITS), i);
    case Whole(_, value) =>
      LowBits(BITS, i);
      ZeroBits(i);
  }

  function RangeMask(begin: nat, end: nat): nat
    requires begin < end <= BITS
  {
    PowersGrow(begin, BITS);
    if end == BITS then Not(Pow2(begin) - 1, BITS) else And(Pow2(end) - 1, Not(Pow2(begin) - 1, BITS))
  }

  lemma RangeMaskBits(begin: nat, end: nat, i: nat)
    requires begin < end <= BITS && i < BITS
    ensures Bit(RangeMask(begin, end), i) <==> begin <= i < end
    ensures RangeMask(begin, end) < Pow2(BITS)
  {
    hide Pow2, Bit, And;
    PowersGrow(begin, BITS);
    PowersGrow(end, BITS);
    LowBits(begin, i);
    LowBits(end, i);
    NotBits(Pow2(begin) - 1, BITS, i);
    AndBits(Pow2(end) - 1, Not(Pow2(begin) - 1, BITS), i);
  }

  // --- calls as word operations -------------------------------------------------------------------------

  datatype Call = One(position: nat, bit: bool) | Range(begin: nat, end: nat, bit: bool) {
    predicate Within(size: nat) {
      if One? then position < size else begin <= end <= size
    }

    predicate Includes(k: nat) {
      if One? then k == position else begin <= k < end
    }
  }

  function Wholes(first: nat, end: nat, value: bool): seq<WordOp> {
    if end <= first then [] else Wholes(first, end - 1, value) + [Whole(end - 1, value)]
  }

  function Leading(word: nat, offset: nat, value: bool): seq<WordOp>
    requires offset < BITS
  {
    if offset != 0 then [Masked(word, RangeMask(offset, BITS), value)] else []
  }

  function Trailing(word: nat, offset: nat, value: bool): seq<WordOp>
    requires offset < BITS
  {
    if offset != 0 then [Masked(word, RangeMask(0, offset), value)] else []
  }

  /** The operations of a range that starts and ends at a bit offset within a word. */
  function RangeOps(beginWord: nat, beginOffset: nat, endWord: nat, endOffset: nat, value: bool): seq<WordOp>
    requires beginOffset < BITS && endOffset < BITS
  {
    if beginWord == endWord then
      if beginOffset < endOffset then [Masked(beginWord, RangeMask(beginOffset, endOffset), value)] else []
    else Leading(beginWord, beginOffset, value) + Trailing(endWord, endOffset, value)
         + Wholes(if beginOffset != 0 then beginWord + 1 else beginWord, endWord, value)
  }

  /** The word operations of a call, in the order they are made. */
  function OpsOf(call: Call): seq<WordOp> {
    match call
    case One(position, bit) => [Masked(position / BITS, Pow2(position % BITS), bit)]
    case Range(begin, end, bit) => RangeOps(begin / BITS, begin % BITS, end / BITS, end % BITS, bit)
  }

  /** The value of the last operation that covers a bit. */
  function Latest(ops: seq<WordOp>, k: nat): Option<bool> {
    if ops == [] then None
    else if ops[|ops| - 1].Covers(k) then Some(ops[|ops| - 1].value)
    else Latest(ops[..|ops| - 1], k)
  }

  function Later(earlier: Option<bool>, later: Option<bool>): Option<bool> {
    if later.Some? then later else earlier
  }

  lemma {:induction false} LatestConcat(a: seq<WordOp>, b: seq<WordOp>, k: nat)
    ensures Latest(a + b, k) == Later(Latest(a, k), Latest(b, k))
  {
    if b == [] {
      assert a + b == a;
    } else {
      assert (a + b)[..|a + b| - 1] == a + b[..|b| - 1];
      LatestConcat(a, b[..|b| - 1], k);
    }
  }

  lemma {:induction false} LatestWholes(first: nat, end: nat, value: bool, k: nat)
    ensures Latest(Wholes(first, end, value), k) == if first <= k / BITS < end then Some(value) else None
    ensures forall op :: op in Wholes(first, end, value) ==> op.Fits() && first <= op.word < end
  {
    if end > first {
      LatestWholes(first, end - 1, value, k);
      LatestConcat(Wholes(first, end - 1, value), [Whole(end - 1, value)], k);
    }
  }

  lemma LatestMasked(word: nat, begin: nat, end: nat, value: bool, k: nat)
    requires begin < end <= BITS
    ensures Latest([Masked(word, RangeMask(begin, end), value)], k)
            == if k / BITS == word && begin <= k % BITS < end then Some(value) else None
    ensures Masked(word, RangeMask(begin, end), value).Fits()
  {
    hide RangeMask;
    RangeMaskBits(begin, end, k % BITS);
    assert [Masked(word, RangeMask(begin, end), value)][..0] == [];
  }

  predicate FitAll(ops: seq<WordOp>, nWords: nat) {
    forall op :: op in ops ==> op.Fits() && op.word < nWords
  }

  function WordsFor(size: nat): nat {
    (size + BITS - 1) / BITS
  }

  /** A word holds 64 bits, and the last word may hold fewer of the set. */
  lemma WordsCover(size: nat)
    ensures 64 * WordsFor(size) >= size && (size > 0 ==> 64 * (WordsFor(size) - 1) < size)
  {
  }

  /** For every alignment, the word operations of a call cover exactly its bits. */
  lemma CallExact(call: Call, size: nat, k: nat)
    requires call.Within(size)
    ensures Latest(OpsOf(call), k) == if call.Includes(k) then Some(call.bit) else None
    ensures FitAll(OpsOf(call), WordsFor(size))
  {
    match call
    case One(position, bit) =>
      PowerBits(position % BITS, k % BITS);
      PowersGrow(position % BITS, BITS);
      assert OpsOf(call)[..0] == [];
    case Range(begin, end, bit) => RangeExact(begin, end, bit, size, k);
  }

  lemma RangeExact(begin: nat, end: nat, bit: bool, size: nat, k: nat)
    requires begin <= end <= size
    ensures Latest(OpsOf(Range(begin, end, bit)), k) == if begin <= k < end then Some(bit) else None
    ensures FitAll(OpsOf(Range(begin, end, bit)), WordsFor(size))
  {
    hide RangeOps, FitAll, Latest;
    RangeOpsExact(begin / BITS, begin % BITS, end / BITS, end % BITS, bit, k);
    assert Range(begin, end, bit).Includes(k) <==>
           AtOrBefore(begin / BITS, begin % BITS, k / BITS, k % BITS)
             && !AtOrBefore(end / BITS, end % BITS, k / BITS, k % BITS);
    FitMore(RangeOps(begin / BITS, begin % BITS, end / BITS, end % BITS, bit),
            if end % BITS == 0 then end / BITS else end / BITS + 1, WordsFor(size));
  }

  lemma FitMore(ops: seq<WordOp>, n: nat, m: nat)
    requires FitAll(ops, n) && n <= m
    ensures FitAll(ops, m)
  {
  }

  /** The order of bit positions given as a word and an offset. */
  predicate AtOrBefore(word: nat, offset: nat, kWord: nat, kOffset: nat) {
    word < kWord || (word == kWord && offset <= kOffset)
  }

  lemma RangeOpsExact(bw: nat, bo: nat, ew: nat, eo: nat, value: bool, k: nat)
    requires bo < BITS && eo < BITS && AtOrBefore(bw, bo, ew, eo)
    ensures Latest(RangeOps(bw, bo, ew, eo, value), k)
            == if AtOrBefore(bw, bo, k / BITS, k % BITS) && !AtOrBefore(ew, eo, k / BITS, k % BITS)
               then Some(value) else None
    ensures FitAll(RangeOps(bw, bo, ew, eo, value), if eo == 0 then ew else ew + 1)
  {
    hide RangeMask, Wholes;
    var kw, kb := k / BITS, k % BITS;
    if bw == ew {
      if bo < eo { LatestMasked(bw, bo, eo, value, k); }
    } else {
      var first := if bo != 0 then bw + 1 else bw;
      var head, tail, middle := Leading(bw, bo, value), Trailing(ew, eo, value), Wholes(first, ew, value);
      if bo != 0 { LatestMasked(bw, bo, BITS, value, k); }
      if eo != 0 { LatestMasked(ew, 0, eo, value, k); }
      LatestWholes(first, ew, value, k);
      assert FitAll(head + tail + middle, if eo == 0 then ew else ew + 1);
      hide Latest;
      LatestConcat(head + tail, middle, k);
      LatestConcat(head, tail, k);
    }
  }

  // --- words --------------------------------------------------------------------------------------------

  predicate AreWords(words: seq<nat>) {
    forall i :: 0 <= i < |words| ==> words[i] < Pow2(BITS)
  }

  function BitAt(words: seq<nat>, k: nat): bool
    requires k < |words| * BITS
  {
    Bit(words[k / BITS], k % BITS)
  }

  function Commit(words: seq<nat>, op: WordOp): (r: seq<nat>)
    requires op.Fits() && op.word < |words|
    ensures |r| == |words|
  {
    words[op.word := op.Apply(words[op.word])]
  }

  function Replay(words: seq<nat>, ops: seq<WordOp>): (r: seq<nat>)
    requires FitAll(ops, |words|)
    ensures |r| == |words|
  {
    if ops == [] then words else Commit(Replay(words, ops[..|ops| - 1]), ops[|ops| - 1])
  }

  lemma {:induction false} ReplayWords(words: seq<nat>, ops: seq<WordOp>)
    requires AreWords(words) && FitAll(ops, |words|)
    ensures AreWords(Replay(words, ops))
  {
    if ops != [] {
      ReplayWords(words, ops[..|ops| - 1]);
      var before, op := Replay(words, ops[..|ops| - 1]), ops[|ops| - 1];
      ApplyBit(op, before[op.word], 0);
    }
  }

  /** Replaying operations leaves every bit as the last operation covering it says, and the rest alone. */
  lemma {:induction false} ReplayBit(words: seq<nat>, ops: seq<WordOp>, k: nat)
    requires AreWords(words) && FitAll(ops, |words|) && k < |words| * BITS
    ensures BitAt(Replay(words, ops), k) == match Latest(ops, k) case Some(v) => v case None => BitAt(words, k)
  {
    if ops != [] {
      var front, op := ops[..|ops| - 1], ops[|ops| - 1];
      ReplayBit(words, front, k);
      ReplayWords(words, front);
      ApplyBit(op, Replay(words, front)[op.word], k % BITS);
    }
  }

  lemma {:induction false} ReplayConcat(words: seq<nat>, a: seq<WordOp>, b: seq<WordOp>)
    requires FitAll(a, |words|) && FitAll(b, |words|)
    ensures Replay(words, a + b) == Replay(Replay(words, a), b)
  {
    if b == [] {
      assert a + b == a;
    } else {
      assert (a + b)[..|a + b| - 1] == a + b[..|b| - 1];
      ReplayConcat(words, a, b[..|b| - 1]);
    }
  }

  lemma ReplayOneMore(words: seq<nat>, ops: seq<WordOp>, op: WordOp)
    requires FitAll(ops, |words|) && op.Fits() && op.word < |words|
    ensures FitAll(ops + [op], |words|) && Replay(words, ops + [op]) == Commit(Replay(words, ops), op)
  {
    assert (ops + [op])[..|ops|] == ops;
  }

  /** A word keeps its value through operations on other words. */
  lemma {:induction false} ReplayElsewhere(words: seq<nat>, ops: seq<WordOp>, word: nat)
    requires FitAll(ops, |words|) && word < |words| && forall op :: op in ops ==> op.word != word
    ensures Replay(words, ops)[word] == words[word]
  {
    if ops != [] { ReplayElsewhere(words, ops[..|ops| - 1], word); }
  }

  // --- one caller ---------------------------------------------------------------------------------------

  class AtomicBitset {
    const size: nat
    const words: array<nat>

    predicate Valid()
      reads words
    {
      words.Length == WordsFor(size) && AreWords(words[..])
    }

    constructor (size: nat)
      ensures Valid() && this.size == size && fresh(words) && forall k :: 0 <= k < size ==> !BitAt(words[..], k)
    {
      this.size := size;
      words := new nat[WordsFor(size)](_ => 0);
      new;
      forall k | 0 <= k < size ensures !BitAt(words[..], k) { ZeroBits(k % BITS); }
    }

    method CompareExchange(word: nat, expected: nat, desired: nat) returns (ok: bool)
      requires word < words.Length
      modifies words
      ensures ok == (old(words[word]) == expected)
      ensures words[..] == if ok then old(words[..])[word := desired] else old(words[..])
    {
      ok := words[word] == expected;
      if ok { words[word] := desired; }
    }

    method SetMasked(word: nat, mask: nat, value: bool)
      requires word < words.Length && mask < Pow2(BITS)
      modifies words
      ensures words[..] == Commit(old(words[..]), Masked(word, mask, value))
    {
      var done := false;
      while !done
        invariant words[..] == if done then Commit(old(words[..]), Masked(word, mask, value)) else old(words[..])
        decreases !done
      {
        var oldBits := words[word];
        var newBits := if value then Or(oldBits, mask) else And(oldBits, Not(mask, BITS));
        done := CompareExchange(word, oldBits, newBits);
      }
    }

    method SetBitsInWord(word: nat, begin: nat, end: nat, value: bool)
      requires word < words.Length && begin < end <= BITS
      modifies words
      ensures Masked(word, RangeMask(begin, end), value).Fits()
      ensures words[..] == Commit(old(words[..]), Masked(word, RangeMask(begin, end), value))
    {
      RangeMaskBits(begin, end, 0);
      SetMasked(word, RangeMask(begin, end), value);
    }

    method SetFullWord(word: nat, value: bool)
      requires word < words.Length
      modifies words
      ensures words[..] == Commit(old(words[..]), Whole(word, value))
    {
      words[word] := if value then Pow2(BITS) - 1 else 0;
    }

    method SetBit(position: nat, value: bool)
      requires Valid() && position < size
      modifies words
      ensures Valid()
      ensures forall k :: 0 <= k < words.Length * BITS ==>
                BitAt(words[..], k) == if k == position then value else old(BitAt(words[..], k))
    {
      PowersGrow(position % BITS, BITS);
      ReplayOneMore(words[..], [], Masked(position / BITS, Pow2(position % BITS), value));
      SetMasked(position / BITS, Pow2(position % BITS), value);
      Changed(old(words[..]), One(position, value));
    }

    /** Sets the bits of [begin, end), whatever its alignment, and no other. */
    method SetRange(begin: nat, end: nat, value: bool)
      requires Valid() && begin <= end <= size
      modifies words
      ensures Valid()
      ensures forall k :: 0 <= k < words.Length * BITS ==>
                BitAt(words[..], k) == if begin <= k < end then value else old(BitAt(words[..], k))
    {
      SetWords(begin, end, value);
      Changed(old(words[..]), Range(begin, end, value));
    }

    /** `test`: the word masked with the bit is not 0. */
    method Test(position: nat) returns (on: bool)
      requires Valid() && position < size
      ensures on == BitAt(words[..], position)
    {
      MaskedBit(words[position / BITS], position % BITS);
      on := And(words[position / BITS], Pow2(position % BITS)) != 0;
    }

    lemma Changed(before: seq<nat>, call: Call)
      requires words.Length == WordsFor(size) && |before| == words.Length && AreWords(before) && call.Within(size)
      requires FitAll(OpsOf(call), |before|) && words[..] == Replay(before, OpsOf(call))
      ensures AreWords(words[..])
      ensures forall k :: 0 <= k < words.Length * BITS ==>
                BitAt(words[..], k) == if call.Includes(k) then call.bit else BitAt(before, k)
    {
      hide OpsOf;
      ReplayWords(before, OpsOf(call));
      forall k | 0 <= k < words.Length * BITS
        ensures BitAt(words[..], k) == if call.Includes(k) then call.bit else BitAt(before, k)
      {
        CallExact(call, size, k);
        ReplayBit(before, OpsOf(call), k);
      }
    }

    method SetWords(begin: nat, end: nat, value: bool)
      requires Valid() && begin <= end <= size
      modifies words
      ensures FitAll(OpsOf(Range(begin, end, value)), words.Length)
      ensures words[..] == Replay(old(words[..]), OpsOf(Range(begin, end, value)))
    {
      hide RangeMask, AreWords, FitAll, Commit;
      ghost var before, ops := words[..], OpsOf(Range(begin, end, value));
      CallExact(Range(begin, end, value), size, 0);
      var beginWord, endWord, beginOffset, endOffset := begin / BITS, end / BITS, begin % BITS, end % BITS;
      if begin == end {
        assert ops == [];
      } else if beginWord == endWord {
        ReplaySingle(before, ops);
        SetBitsInWord(beginWord, beginOffset, endOffset, value);
      } else {
        SetSeveralWords(beginWord, beginOffset, endWord, endOffset, value);
      }
    }

    method SetSeveralWords(beginWord: nat, beginOffset: nat, endWord: nat, endOffset: nat, value: bool)
      requires beginWord < endWord && beginOffset < BITS && endOffset < BITS
      requires if endOffset == 0 then endWord <= words.Length else endWord < words.Length
      modifies words
      ensures FitAll(RangeOps(beginWord, beginOffset, endWord, endOffset, value), words.Length)
      ensures words[..] == Replay(old(words[..]), RangeOps(beginWord, beginOffset, endWord, endOffset, value))
    {
      hide RangeMask, Replay, FitAll, Leading, Trailing, Wholes;
      ghost var before := words[..];
      ghost var head, tail := Leading(beginWord, beginOffset, value), Trailing(endWord, endOffset, value);
      var first, last := beginWord, endWord;
      SetLeading(beginWord, beginOffset, value);
      if beginOffset != 0 { first := first + 1; }
      SetTrailing(endWord, endOffset, value);
      ReplayConcat(before, head, tail);
      FitConcat(head, tail, words.Length);
      last := last - 1;
      SetFullWords(first, last + 1, value);
      ReplayConcat(before, head + tail, Wholes(first, endWord, value));
      FitConcat(head + tail, Wholes(first, endWord, value), words.Length);
    }

    method SetLeading(word: nat, offset: nat, value: bool)
      requires word < words.Length && offset < BITS
      modifies words
      ensures FitAll(Leading(word, offset, value), words.Length)
      ensures words[..] == Replay(old(words[..]), Leading(word, offset, value))
    {
      hide RangeMask, Commit;
      if offset != 0 {
        SetBitsInWord(word, offset, BITS, value);
        ReplaySingle(old(words[..]), Leading(word, offset, value));
      }
    }

    method SetTrailing(word: nat, offset: nat, value: bool)
      requires offset < BITS && (offset != 0 ==> word < words.Length)
      modifies words
      ensures FitAll(Trailing(word, offset, value), words.Length)
      ensures words[..] == Replay(old(words[..]), Trailing(word, offset, value))
    {
      hide RangeMask, Commit;
      if offset != 0 {
        SetBitsInWord(word, 0, offset, value);
        ReplaySingle(old(words[..]), Trailing(word, offset, value));
      }
    }

    method SetFullWords(first: nat, end: nat, value: bool)
      requires first <= end <= words.Length
      modifies words
      ensures FitAll(Wholes(first, end, value), words.Length)
      ensures words[..] == Replay(old(words[..]), Wholes(first, end, value))
    {
      hide Commit;
      var wordIndex := first;
      while wordIndex < end
        invariant first <= wordIndex <= end
        invariant FitAll(Wholes(first, wordIndex, value), words.Length)
        invariant words[..] == Replay(old(words[..]), Wholes(first, wordIndex, value))
      {
        SetFullWord(wordIndex, value);
        ReplayOneMore(old(words[..]), Wholes(first, wordIndex, value), Whole(wordIndex, value));
        wordIndex := wordIndex + 1;
      }
    }
  }

  lemma FitConcat(a: seq<WordOp>, b: seq<WordOp>, n: nat)
    requires FitAll(a, n) && FitAll(b, n)
    ensures FitAll(a + b, n)
  {
  }

  lemma ReplaySingle(words: seq<nat>, ops: seq<WordOp>)
    requires |ops| == 1 && FitAll(ops, |words|)
    ensures Replay(words, ops) == Commit(words, ops[0])
  {
    assert ops[..0] == [];
  }

  lemma MaskedBit(w: nat, i: nat)
    ensures And(w, Pow2(i)) != 0 <==> Bit(w, i)
  {
    AndBits(w, Pow2(i), i);
    PowerBits(i, i);
    if !Bit(w, i) {
      forall j | 0 <= j < i + 1 ensures !Bit(And(w, Pow2(i)), j) && !Bit(0, j) {
        AndBits(w, Pow2(i), j);
        PowerBits(i, j);
        ZeroBits(j);
      }
      SameBits(And(w, Pow2(i)), 0, i + 1);
    } else {
      ZeroBits(i);
    }
  }
}
