/** The radix-2 Fourier transform: an in-place recursion over even and odd samples, over exact complex
    numbers, against the defining sum. */
module CooleyTukey {
  import opened Arithmetic

  datatype Complex = Complex(re: real, im: real)

  const ONE := Complex(1.0, 0.0)
  const ZERO := Complex(0.0, 0.0)

  function Plus(a: Complex, b: Complex): Complex {
    Complex(a.re + b.re, a.im + b.im)
  }

  function Minus(a: Complex, b: Complex): Complex {
    Complex(a.re - b.re, a.im - b.im)
  }

  function Times(a: Complex, b: Complex): Complex {
    Complex(a.re * b.re - a.im * b.im, a.re * b.im + a.im * b.re)
  }

  function Negated(a: Complex): Complex {
    Complex(-a.re, -a.im)
  }

  function Power(w: Complex, n: nat): Complex {
    if n == 0 then ONE else Times(Power(w, n - 1), w)
  }

  // --- algebra ------------------------------------------------------------------------------------

  lemma TimesAssociative(a: Complex, b: Complex, c: Complex)
    ensures Times(Times(a, b), c) == Times(a, Times(b, c))
  {
  }

  lemma TimesCommutative(a: Complex, b: Complex)
    ensures Times(a, b) == Times(b, a)
  {
  }

  lemma TimesDistributes(a: Complex, b: Complex, c: Complex)
    ensures Times(a, Plus(b, c)) == Plus(Times(a, b), Times(a, c))
  {
  }

  lemma TimesOne(a: Complex)
    ensures Times(a, ONE) == a && Times(ONE, a) == a
  {
  }

  lemma TimesZero(a: Complex)
    ensures Times(a, ZERO) == ZERO && Plus(a, ZERO) == a
  {
  }

  lemma ZeroPlus(a: Complex)
    ensures Plus(ZERO, a) == a
  {
  }

  lemma TimesNegated(a: Complex, b: Complex, c: Complex)
    ensures Times(Times(a, Negated(ONE)), b) == Negated(Times(a, b))
    ensures Plus(c, Negated(b)) == Minus(c, b)
    ensures Times(Negated(ONE), Negated(ONE)) == ONE
  {
    hide Times;
    TimesMinusOne(a);
    TimesMinusOne(Negated(ONE));
    NegatedTimes(a, b);
  }

  lemma TimesMinusOne(a: Complex)
    ensures Times(a, Negated(ONE)) == Negated(a)
  {
  }

  lemma NegatedTimes(a: Complex, b: Complex)
    ensures Times(Negated(a), b) == Negated(Times(a, b))
  {
  }

  lemma {:induction false} PowerAdds(w: Complex, m: nat, n: nat)
    ensures Power(w, m + n) == Times(Power(w, m), Power(w, n))
  {
    hide Times;
    TimesOne(Power(w, m));
    if n > 0 {
      PowerAdds(w, m, n - 1);
      TimesAssociative(Power(w, m), Power(w, n - 1), w);
    }
  }

  lemma {:induction false} PowerOfPower(w: Complex, m: nat, n: nat)
    ensures Power(w, m * n) == Power(Power(w, m), n)
  {
    hide Times;
    if n == 0 {
      assert m * n == 0;
    } else {
      assert m * n == m * (n - 1) + m;
      PowerOfPower(w, m, n - 1);
      PowerAdds(w, m * (n - 1), m);
    }
  }

  lemma {:induction false} PowerOfOne(n: nat)
    ensures Power(ONE, n) == ONE
  {
    hide Times;
    TimesOne(ONE);
    if n > 0 { PowerOfOne(n - 1); }
  }

  lemma SquareIsPower(w: Complex)
    ensures Power(w, 2) == Times(w, w)
  {
    hide Times;
    TimesOne(w);
    assert Power(w, 1) == Times(Power(w, 0), w);
  }

  // --- the defining sum -----------------------------------------------------------------------------

  /** The first n terms of the sum over j of x[j] * w^(j*k). */
  function DftSum(w: Complex, x: seq<Complex>, k: nat, n: nat): Complex
    requires n <= |x|
  {
    if n == 0 then ZERO else Plus(DftSum(w, x, k, n - 1), Times(x[n - 1], Power(w, (n - 1) * k)))
  }

  function DftAt(w: Complex, x: seq<Complex>, k: nat): Complex {
    DftSum(w, x, k, |x|)
  }

  function Evens(x: seq<Complex>): (r: seq<Complex>)
    ensures |r| == |x| / 2 && forall i :: 0 <= i < |r| ==> r[i] == x[2 * i]
  {
    seq(|x| / 2, i requires 0 <= i < |x| / 2 => x[2 * i])
  }

  function Odds(x: seq<Complex>): (r: seq<Complex>)
    ensures |r| == |x| / 2 && forall i :: 0 <= i < |r| ==> r[i] == x[2 * i + 1]
  {
    seq(|x| / 2, i requires 0 <= i < |x| / 2 => x[2 * i + 1])
  }

  /** The two terms of a pair of samples, in terms of the squared root. */
  lemma PairOfTerms(w: Complex, even: Complex, odd: Complex, k: nat, m: nat)
    ensures Times(even, Power(w, (2 * m) * k)) == Times(even, Power(Times(w, w), m * k))
    ensures Times(odd, Power(w, (2 * m + 1) * k)) == Times(Power(w, k), Times(odd, Power(Times(w, w), m * k)))
  {
    hide Times, Power;
    assert (2 * m) * k == 2 * (m * k) && (2 * m + 1) * k == 2 * (m * k) + k;
    PowerOfPower(w, 2, m * k);
    SquareIsPower(w);
    var p, q := Power(Times(w, w), m * k), Power(w, k);
    PowerAdds(w, 2 * (m * k), k);
    TimesCommutative(p, q);
    TimesAssociative(odd, q, p);
    TimesCommutative(odd, q);
    TimesAssociative(q, odd, p);
  }

  lemma Rearranged(q: Complex, a: Complex, b: Complex, u: Complex, v: Complex)
    ensures Plus(Plus(Plus(a, Times(q, b)), u), Times(q, v)) == Plus(Plus(a, u), Times(q, Plus(b, v)))
  {
    hide Times;
    TimesDistributes(q, b, v);
  }

  /** Splitting the sum into its even and odd terms. */
  lemma {:induction false} SumSplits(w: Complex, x: seq<Complex>, k: nat, m: nat)
    requires 2 * m <= |x|
    ensures DftSum(w, x, k, 2 * m)
            == Plus(DftSum(Times(w, w), Evens(x), k, m), Times(Power(w, k), DftSum(Times(w, w), Odds(x), k, m)))
  {
    hide Times, Plus, Power, Evens, Odds;
    var w2, q := Times(w, w), Power(w, k);
    TimesZero(q);
    TimesZero(ZERO);
    if m > 0 {
      SumSplits(w, x, k, m - 1);
      var even, odd := x[2 * (m - 1)], x[2 * (m - 1) + 1];
      PairOfTerms(w, even, odd, k, m - 1);
      var u, v := Times(even, Power(w2, (m - 1) * k)), Times(odd, Power(w2, (m - 1) * k));
      assert DftSum(w, x, k, 2 * m) == Plus(DftSum(w, x, k, 2 * m - 1), Times(odd, Power(w, (2 * m - 1) * k)));
      assert DftSum(w, x, k, 2 * m - 1) == Plus(DftSum(w, x, k, 2 * m - 2), Times(even, Power(w, (2 * m - 2) * k)));
      Rearranged(q, DftSum(w2, Evens(x), k, m - 1), DftSum(w2, Odds(x), k, m - 1), u, v);
    }
  }

  /** The half-length sums repeat after h values when the squared root's h-th power is one. */
  lemma {:induction false} SumRepeats(w2: Complex, x: seq<Complex>, k: nat, h: nat, n: nat)
    requires n <= |x| && Power(w2, h) == ONE
    ensures DftSum(w2, x, k + h, n) == DftSum(w2, x, k, n)
  {
    hide Times, Plus, Power;
    if n > 0 {
      SumRepeats(w2, x, k, h, n - 1);
      assert (n - 1) * (k + h) == (n - 1) * k + h * (n - 1);
      PowerAdds(w2, (n - 1) * k, h * (n - 1));
      PowerOfPower(w2, h, n - 1);
      PowerOfOne(n - 1);
      TimesOne(Power(w2, (n - 1) * k));
    }
  }

  /** One level of the recursion: both halves of the transform from the transforms of evens and odds. */
  lemma Butterfly(w: Complex, x: seq<Complex>, i: nat)
    requires |x| % 2 == 0 && i < |x| / 2 && Power(w, |x| / 2) == Negated(ONE)
    ensures var even, odd := DftAt(Times(w, w), Evens(x), i), DftAt(Times(w, w), Odds(x), i);
            && DftAt(w, x, i) == Plus(even, Times(Power(w, i), odd))
            && DftAt(w, x, i + |x| / 2) == Minus(even, Times(Power(w, i), odd))
  {
    hide Times, Plus, Minus, Negated, Power, DftSum, Evens, Odds;
    var h, w2 := |x| / 2, Times(w, w);
    SumSplits(w, x, i, h);
    SumSplits(w, x, i + h, h);
    HalfTurns(w, h);
    SumRepeats(w2, Evens(x), i, h, h);
    SumRepeats(w2, Odds(x), i, h, h);
    PowerAdds(w, i, h);
    var odd := DftAt(w2, Odds(x), i);
    TimesNegated(Power(w, i), odd, ZERO);
    TimesNegated(ONE, Times(Power(w, i), odd), DftAt(w2, Evens(x), i));
  }

  lemma HalfTurns(w: Complex, h: nat)
    requires Power(w, h) == Negated(ONE)
    ensures Power(Times(w, w), h) == ONE
  {
    hide Times, Negated, Power;
    SquareIsPower(w);
    PowerOfPower(w, 2, h);
    PowerOfPower(w, h, 2);
    TimesNegated(ONE, ONE, ONE);
    SquareIsPower(Negated(ONE));
    assert 2 * h == h * 2;
  }

  /** The value the recursion puts at position k, from the transforms of evens and odds. */
  function Combined(w: Complex, even: seq<Complex>, odd: seq<Complex>, k: nat): Complex
    requires |even| == |odd| && k < 2 * |even|
  {
    if k < |even| then Plus(even[k], Times(Power(w, k), odd[k]))
    else Minus(even[k - |even|], Times(Power(w, k - |even|), odd[k - |even|]))
  }

  /** The recursion over even and odd samples, for any factor w in place of the root of unity. */
  function Recursive(w: Complex, x: seq<Complex>): (r: seq<Complex>)
    requires IsPowerOfTwo(|x|)
    ensures |r| == |x|
    decreases |x|
  {
    if |x| == 1 then x
    else
      var even, odd := Recursive(Times(w, w), Evens(x)), Recursive(Times(w, w), Odds(x));
      seq(|x|, k requires 0 <= k < |x| => Combined(w, even, odd, k))
  }

  /** For every power-of-two length N > 1 and every w with w^(N/2) = -1 the recursion gives the sum over j
      of x[j] * w^(j*k) at position k. */
  lemma {:induction false} RecursiveIsDft(w: Complex, x: seq<Complex>)
    requires IsPowerOfTwo(|x|) && (|x| > 1 ==> Power(w, |x| / 2) == Negated(ONE))
    ensures forall k :: 0 <= k < |x| ==> Recursive(w, x)[k] == DftAt(w, x, k)
    decreases |x|
  {
    hide Times, Plus, Minus, Negated, Power, DftAt, Evens, Odds;
    if |x| == 1 {
      SingleSample(w, x);
    } else {
      var h, w2 := |x| / 2, Times(w, w);
      HalfOfHalf(w, h);
      RecursiveIsDft(w2, Evens(x));
      RecursiveIsDft(w2, Odds(x));
      forall k | 0 <= k < |x| ensures Recursive(w, x)[k] == DftAt(w, x, k) {
        Butterfly(w, x, if k < h then k else k - h);
      }
    }
  }

  lemma HalfOfHalf(w: Complex, h: nat)
    requires Power(w, h) == Negated(ONE) && IsPowerOfTwo(h)
    ensures h > 1 ==> Power(Times(w, w), h / 2) == Negated(ONE)
  {
    hide Times, Negated, Power;
    if h > 1 {
      PowerOfPower(w, 2, h / 2);
      SquareIsPower(w);
      assert 2 * (h / 2) == h;
    }
  }

  // --- roots from cosine and sine -------------------------------------------------------------------

  /** Cosine, sine and pi, of which only the addition theorems and the values at 0 and pi are used. */
  datatype Trigonometry = Trigonometry(cos: real -> real, sin: real -> real, pi: real) {
    ghost predicate Lawful() {
      && cos(0.0) == 1.0 && sin(0.0) == 0.0 && cos(pi) == -1.0 && sin(pi) == 0.0
      && forall a, b :: AddsAt(a, b)
    }

    ghost predicate AddsAt(a: real, b: real) {
      && cos(a + b) == cos(a) * cos(b) - sin(a) * sin(b)
      && sin(a + b) == cos(a) * sin(b) + sin(a) * cos(b)
    }

    function Cis(angle: real): Complex {
      Complex(cos(angle), sin(angle))
    }

    function Angle(n: nat): real
      requires n > 0
    {
      2.0 * pi / n as real
    }

    /** The factor `wkn` of the source. */
    function Twiddle(n: nat, i: nat): Complex
      requires n > 0
    {
      Multiple(Angle(n), i)
    }

    function Multiple(angle: real, i: nat): Complex {
      Cis(angle * i as real)
    }

    function Root(n: nat): Complex
      requires n > 0
    {
      Cis(Angle(n))
    }
  }

  lemma CisAdds(t: Trigonometry, a: real, b: real)
    requires t.Lawful()
    ensures t.Cis(a + b) == Times(t.Cis(a), t.Cis(b))
  {
    assert t.AddsAt(a, b);
  }

  lemma CisOfZero(t: Trigonometry)
    requires t.Lawful()
    ensures t.Cis(0.0) == ONE
  {
  }

  /** An angle counted out n times. */
  function Repeated(a: real, n: nat): real {
    if n == 0 then 0.0 else Repeated(a, n - 1) + a
  }

  lemma {:induction false} RepeatedIsProduct(a: real, n: nat)
    ensures Repeated(a, n) == a * n as real
  {
    if n == 0 {
      assert a * 0.0 == 0.0;
    } else {
      RepeatedIsProduct(a, n - 1);
      assert n as real == (n - 1) as real + 1.0;
      assert a * ((n - 1) as real + 1.0) == a * (n - 1) as real + a;
    }
  }

  lemma {:induction false} CisOfRepeated(t: Trigonometry, a: real, n: nat)
    requires t.Lawful()
    ensures t.Cis(Repeated(a, n)) == Power(t.Cis(a), n)
  {
    hide Trigonometry.Lawful, Trigonometry.Cis, Times;
    if n == 0 {
      CisOfZero(t);
    } else {
      CisOfRepeated(t, a, n - 1);
      CisAdds(t, Repeated(a, n - 1), a);
    }
  }

  /** De Moivre: the n-th power of a point on the unit circle is the point at n times the angle. */
  lemma CisOfMultiple(t: Trigonometry, a: real, n: nat)
    requires t.Lawful()
    ensures t.Multiple(a, n) == t.Cis(a * n as real) == Power(t.Cis(a), n)
  {
    hide Trigonometry.Lawful, Trigonometry.Cis;
    CisOfRepeated(t, a, n);
    RepeatedIsProduct(a, n);
  }

  lemma QuotientTimes(x: real, y: real)
    requires y != 0.0
    ensures x / y * y == x
  {
  }

  lemma SameQuotient(x: real, y: real, z: real)
    requires z != 0.0 && x * z == y * z
    ensures x == y
  {
    assert (x - y) * z == 0.0;
  }

  /** Half as many steps over the full turn make each step twice as long, and they end at half a turn. */
  lemma HalfAsManySteps(t: Trigonometry, h: nat)
    requires h > 0
    ensures t.Angle(h) == t.Angle(2 * h) + t.Angle(2 * h)
    ensures t.Angle(2 * h) * h as real == t.pi
  {
    var a, r, turn := t.Angle(2 * h), h as real, 2.0 * t.pi;
    assert (2 * h) as real == 2.0 * r;
    QuotientTimes(turn, 2.0 * r);
    QuotientTimes(turn, r);
    assert a * (2.0 * r) == 2.0 * (a * r);
    assert (a + a) * r == 2.0 * (a * r);
    SameQuotient(t.Angle(h), a + a, r);
  }

  lemma RootsFit(t: Trigonometry, n: nat)
    requires t.Lawful() && n > 0 && n % 2 == 0
    ensures t.Root(n / 2) == Times(t.Root(n), t.Root(n))
    ensures Power(t.Root(n), n / 2) == Negated(ONE)
  {
    hide Trigonometry.Lawful, Trigonometry.Cis, Trigonometry.Angle, Times, Power, Negated;
    var a, h := t.Angle(n), n / 2;
    assert n == 2 * h;
    HalfAsManySteps(t, h);
    assert t.Angle(h) == a + a;
    CisAdds(t, a, a);
    CisOfMultiple(t, a, h);
    assert a * h as real == t.pi;
    assert Power(t.Cis(a), h) == t.Cis(t.pi);
    CisOfHalfTurn(t);
  }

  lemma CisOfHalfTurn(t: Trigonometry)
    requires t.Lawful()
    ensures t.Cis(t.pi) == Negated(ONE)
  {
  }

  // --- the transform --------------------------------------------------------------------------------

  /** The transform of a signal whose length is a power of two, with the root exp(2 pi i / N). */
  method ComputeFft(t: Trigonometry, signal: array<Complex>)
    requires t.Lawful() && IsPowerOfTwo(signal.Length)
    modifies signal
    ensures forall k :: 0 <= k < signal.Length ==> signal[k] == DftAt(t.Root(signal.Length), old(signal[..]), k)
    decreases signal.Length
  {
    hide Trigonometry.Lawful, Trigonometry.Root, DftAt, Times, Plus, Minus, Negated, Power, Evens, Odds;
    ghost var x := signal[..];
    var n := signal.Length;
    if n == 1 {
      SingleSample(t.Root(1), x);
      return;
    }
    var even, odd := SplitSamples(signal);
    ComputeFft(t, even);
    ComputeFft(t, odd);
    RootsFit(t, n);
    Combine(t, signal, even, odd);
  }

  /** The first loop of the recursion. */
  method SplitSamples(signal: array<Complex>) returns (even: array<Complex>, odd: array<Complex>)
    ensures fresh(even) && fresh(odd) && even != odd
    ensures even[..] == Evens(signal[..]) && odd[..] == Odds(signal[..])
  {
    var h := signal.Length / 2;
    even, odd := new Complex[h], new Complex[h];
    for i := 0 to h
      invariant forall k :: 0 <= k < i ==> even[k] == signal[2 * k] && odd[k] == signal[2 * k + 1]
    {
      even[i] := signal[2 * i];
      odd[i] := signal[2 * i + 1];
    }
  }

  /** The second loop of the recursion. */
  method Combine(t: Trigonometry, signal: array<Complex>, even: array<Complex>, odd: array<Complex>)
    requires t.Lawful() && signal.Length > 0 && signal.Length % 2 == 0 && even.Length == signal.Length / 2 == odd.Length
    requires signal != even && signal != odd
    requires Power(t.Root(signal.Length), signal.Length / 2) == Negated(ONE)
    requires var w, x := t.Root(signal.Length), signal[..];
             forall k :: 0 <= k < even.Length
               ==> even[k] == DftAt(Times(w, w), Evens(x), k) && odd[k] == DftAt(Times(w, w), Odds(x), k)
    modifies signal
    ensures forall k :: 0 <= k < signal.Length ==> signal[k] == DftAt(t.Root(signal.Length), old(signal[..]), k)
  {
    hide Trigonometry.Lawful, Trigonometry.Root, DftAt, Times, Plus, Minus, Negated, Power;
    ghost var x := signal[..];
    var n := signal.Length;
    ghost var w := t.Root(n);
    for i := 0 to n / 2
      invariant forall k :: 0 <= k < i ==> signal[k] == DftAt(w, x, k)
      invariant forall k :: n / 2 <= k < n / 2 + i ==> signal[k] == DftAt(w, x, k)
    {
      var factor := t.Twiddle(n, i);
      TwiddleIsPower(t, n, i);
      Butterfly(w, x, i);
      signal[i] := Plus(even[i], Times(factor, odd[i]));
      signal[i + n / 2] := Minus(even[i], Times(factor, odd[i]));
    }
  }

  lemma TwiddleIsPower(t: Trigonometry, n: nat, i: nat)
    requires t.Lawful() && n > 0
    ensures t.Twiddle(n, i) == Power(t.Root(n), i)
  {
    hide Trigonometry.Lawful, Trigonometry.Angle, Trigonometry.Cis, Trigonometry.Multiple;
    CisOfMultiple(t, t.Angle(n), i);
  }

  lemma SingleSample(w: Complex, x: seq<Complex>)
    requires |x| == 1
    ensures DftAt(w, x, 0) == x[0]
  {
    hide Times, Plus;
    assert DftSum(w, x, 0, 0) == ZERO;
    assert Power(w, 0 * 0) == ONE;
    TimesOne(x[0]);
    assert Plus(ZERO, x[0]) == x[0] by { ZeroPlus(x[0]); }
  }
}
