/** Port names as text: the decimal rendering used when a name is made up, the index parser used
    when a name is looked up, and the endless supply of candidate names an export can fall back on. */
module PortNames {
  import opened Options

  /** One past the largest `std::size_t`. */
  const SIZE_LIMIT: nat := 0x1_0000_0000_0000_0000

  predicate IsDigit(c: char) {
    '0' <= c <= '9'
  }

  function DigitChar(n: nat): (c: char)
    requires n < 10
    ensures IsDigit(c)
  {
    '0' + n as char
  }

  /** A natural number the way `std::format("{}", n)` writes it. */
  function Decimal(n: nat): string {
    if n < 10 then [DigitChar(n)] else Decimal(n / 10) + [DigitChar(n % 10)]
  }

  function LeadingDigits(s: string): (k: nat)
    ensures k <= |s|
    ensures forall i :: 0 <= i < k ==> IsDigit(s[i])
    ensures k < |s| ==> !IsDigit(s[k])
  {
    if s == "" || !IsDigit(s[0]) then 0 else 1 + LeadingDigits(s[1..])
  }

  function DigitsValue(s: string): nat
    requires forall i :: 0 <= i < |s| ==> IsDigit(s[i])
  {
    if s == "" then 0 else
      assert IsDigit(s[|s| - 1]);
      DigitsValue(s[..|s| - 1]) * 10 + (s[|s| - 1] as int - '0' as int)
  }

  /** `std::from_chars` into a `std::size_t`: the leading digits, an error without any or on overflow. */
  function ParseIndex(s: string): Option<nat> {
    var digits := s[..LeadingDigits(s)];
    if digits == "" || DigitsValue(digits) >= SIZE_LIMIT then None else Some(DigitsValue(digits))
  }

  lemma {:induction false} DecimalIsDigits(n: nat)
    ensures |Decimal(n)| > 0
    ensures forall i :: 0 <= i < |Decimal(n)| ==> IsDigit(Decimal(n)[i])
    ensures DigitsValue(Decimal(n)) == n
  {
    if n < 10 {
      assert DigitsValue([DigitChar(n)]) == DigitsValue("") * 10 + n;
    } else {
      DecimalIsDigits(n / 10);
      assert Decimal(n)[..|Decimal(n)| - 1] == Decimal(n / 10);
    }
  }

  /** Reading back what was written: the sub-index of "base#7" is found again by the lookup. */
  lemma ParseDecimal(n: nat)
    requires n < SIZE_LIMIT
    ensures ParseIndex(Decimal(n)) == Some(n)
  {
    DecimalIsDigits(n);
    var d := Decimal(n);
    assert d[..LeadingDigits(d)] == d;
  }

  /** The k-th name tried for an export: the plain name, then "_1", "_2", ... appended to it. */
  function Candidate(base: string, k: nat): string {
    if k == 0 then base else base + "_" + Decimal(k)
  }

  lemma CandidateNames(base: string)
    ensures Candidate(base, 0) == base && Candidate(base, 1) == base + "_1" && Candidate(base, 12) == base + "_12"
  {
    assert Decimal(1) == "1" && Decimal(2) == "2";
    assert Decimal(12) == Decimal(1) + Decimal(2) == "12";
    assert base + "_" + "12" == base + "_12" && base + "_" + "1" == base + "_1";
  }

  lemma CandidatesDiffer(base: string, j: nat, k: nat)
    requires j < k
    ensures Candidate(base, j) != Candidate(base, k)
  {
    var tail := "_" + Decimal(k);
    assert Candidate(base, k) == base + tail;
    if j > 0 {
      assert Candidate(base, j) == base + ("_" + Decimal(j));
      if Candidate(base, j) == Candidate(base, k) {
        assert (base + ("_" + Decimal(j)))[|base|..] == "_" + Decimal(j);
        assert (base + tail)[|base|..] == tail;
        assert ("_" + Decimal(j))[1..] == Decimal(j);
        assert tail[1..] == Decimal(k);
        DecimalIsDigits(j);
        DecimalIsDigits(k);
      }
    }
  }

  /** Pigeonhole: when the first k candidates are all taken, at least k names are taken. */
  lemma {:induction false} TakenCandidates(base: string, k: nat, taken: set<string>)
    requires forall j: nat :: j < k ==> Candidate(base, j) in taken
    ensures k <= |taken|
  {
    if k > 0 {
      var last := Candidate(base, k - 1);
      forall j: nat | j < k - 1 ensures Candidate(base, j) in taken - {last} {
        CandidatesDiffer(base, j, k - 1);
      }
      TakenCandidates(base, k - 1, taken - {last});
    }
  }

  /** The first candidate from the k-th on that is not taken; the pigeonhole is why the search ends. */
  function FreeCandidate(base: string, taken: set<string>, k: nat): (name: string)
    requires forall j: nat :: j < k ==> Candidate(base, j) in taken
    ensures name !in taken
    ensures exists m: nat ::
              k <= m && name == Candidate(base, m) && forall j: nat :: j < m ==> Candidate(base, j) in taken
    decreases |taken| - k
  {
    TakenCandidates(base, k, taken);
    if Candidate(base, k) in taken then
      TakenCandidates(base, k + 1, taken);
      FreeCandidate(base, taken, k + 1)
    else
      Candidate(base, k)
  }
}
