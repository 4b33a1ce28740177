/** Settings with the time from which they hold: a sorted history per context, the lookup of what holds at
    a time, the choice of an unused time, and the removal of what is no longer needed. */
module TimedSettings {
  import opened Options

  /** One stored parameter set. Time 0 in a query stands for "the latest there is". */
  datatype Entry<P> = Entry(time: nat, params: P)

  ghost predicate Sorted<P>(h: seq<Entry<P>>) {
    forall i, j :: 0 <= i < j < |h| ==> h[i].time <= h[j].time
  }

  ghost predicate StrictlySorted<P>(h: seq<Entry<P>>) {
    forall i, j :: 0 <= i < j < |h| ==> h[i].time < h[j].time
  }

  predicate Stored<P>(h: seq<Entry<P>>, t: nat) {
    exists i :: 0 <= i < |h| && h[i].time == t
  }

  /** The first position whose time is not before t. */
  function LowerBound<P>(h: seq<Entry<P>>, t: nat): (k: nat)
    ensures k <= |h|
    ensures Sorted(h) ==> (forall i :: 0 <= i < k ==> h[i].time < t) && (forall i :: k <= i < |h| ==> h[i].time >= t)
  {
    if h == [] then 0
    else if h[|h| - 1].time < t then |h|
    else LowerBound(h[..|h| - 1], t)
  }

  function UpperBound<P>(h: seq<Entry<P>>, t: nat): (k: nat)
    ensures k <= |h|
    ensures Sorted(h) ==> (forall i :: 0 <= i < k ==> h[i].time <= t) && (forall i :: k <= i < |h| ==> h[i].time > t)
  {
    LowerBound(h, t + 1)
  }

  /** `std::ranges::lower_bound` by bisection. */
  method FindLowerBound<P>(h: seq<Entry<P>>, t: nat) returns (k: nat)
    requires Sorted(h)
    ensures k == LowerBound(h, t)
  {
    var low, high := 0, |h|;
    while low < high
      invariant 0 <= low <= high <= |h|
      invariant forall i :: 0 <= i < low ==> h[i].time < t
      invariant forall i :: high <= i < |h| ==> h[i].time >= t
    {
      var mid := low + (high - low) / 2;
      if h[mid].time < t { low := mid + 1; } else { high := mid; }
    }
    k := low;
    BoundIs(h, t, k);
  }

  lemma {:induction false} BoundIs<P>(h: seq<Entry<P>>, t: nat, k: nat)
    requires k <= |h| && (forall i :: 0 <= i < k ==> h[i].time < t) && (forall i :: k <= i < |h| ==> h[i].time >= t)
    ensures LowerBound(h, t) == k
  {
    if k < |h| { BoundIs(h[..|h| - 1], t, k); }
  }

  lemma {:induction false} BoundsOrdered<P>(h: seq<Entry<P>>, s: nat, t: nat)
    requires s <= t
    ensures LowerBound(h, s) <= LowerBound(h, t)
  {
    if h != [] { BoundsOrdered(h[..|h| - 1], s, t); }
  }

  // --- lookup -----------------------------------------------------------------------------------------

  /** The time stored at or before t that a query for t selects. */
  function MatchingTime<P>(h: seq<Entry<P>>, t: nat): Option<nat> {
    if h == [] then None
    else if t == 0 || h[|h| - 1].time <= t then Some(h[|h| - 1].time)
    else
      var lower := LowerBound(h, t);
      if lower == |h| then Some(h[|h| - 1].time)
      else if h[lower].time == t then Some(t)
      else if lower != 0 then Some(h[lower - 1].time)
      else None
  }

  /** The first entry stored for exactly this time. */
  function FirstAt<P>(h: seq<Entry<P>>, time: nat): Option<P> {
    if h == [] then None
    else if h[0].time == time then Some(h[0].params)
    else FirstAt(h[1..], time)
  }

  function Lookup<P>(h: seq<Entry<P>>, t: nat): Option<P> {
    match MatchingTime(h, t)
    case None => None
    case Some(time) => FirstAt(h, time)
  }

  predicate Visible<P>(e: Entry<P>, t: nat) {
    t == 0 || e.time <= t
  }

  /** What a lookup is meant to find, whatever the order: the visible entry of the greatest time, and of
      several with that time the first. */
  function Best<P>(h: seq<Entry<P>>, t: nat): Option<Entry<P>> {
    if h == [] then None
    else
      var before, last := Best(h[..|h| - 1], t), h[|h| - 1];
      if Visible(last, t) && (before.None? || before.value.time < last.time) then Some(last) else before
  }

  /** The entry at a position is the best one. */
  ghost predicate IsBest<P>(h: seq<Entry<P>>, t: nat, i: nat) {
    && i < |h| && Visible(h[i], t)
    && (forall j :: 0 <= j < |h| && Visible(h[j], t) ==> h[j].time <= h[i].time)
    && (forall j :: 0 <= j < i ==> Visible(h[j], t) ==> h[j].time < h[i].time)
  }

  lemma {:induction false} BestIs<P>(h: seq<Entry<P>>, t: nat) returns (i: nat)
    ensures i < |h| ==> Best(h, t) == Some(h[i]) && IsBest(h, t, i)
    ensures i >= |h| ==> Best(h, t) == None && forall j :: 0 <= j < |h| ==> !Visible(h[j], t)
  {
    if h == [] { return 0; }
    var front := h[..|h| - 1];
    i := BestIs(front, t);
    assert forall j :: 0 <= j < |front| ==> h[j] == front[j];
    if i >= |front| {
      i := if Visible(h[|front|], t) then |front| else |h|;
    } else if Visible(h[|front|], t) && h[i].time < h[|front|].time {
      i := |front|;
    }
  }

  lemma BestUnique<P>(h: seq<Entry<P>>, t: nat, i: nat)
    requires IsBest(h, t, i)
    ensures Best(h, t) == Some(h[i])
  {
    var k := BestIs(h, t);
    assert Visible(h[i], t);
    if k < |h| { assert k == i by { assert h[k].time <= h[i].time <= h[k].time; } }
  }

  lemma {:induction false} FirstAtIs<P>(h: seq<Entry<P>>, i: nat)
    requires i < |h| && forall j :: 0 <= j < i ==> h[j].time != h[i].time
    ensures FirstAt(h, h[i].time) == Some(h[i].params)
  {
    if i > 0 { FirstAtIs(h[1..], i - 1); }
  }

  function ParamsOf<P>(e: Option<Entry<P>>): Option<P> {
    match e case None => None case Some(x) => Some(x.params)
  }

  /** On a sorted history the binary search finds the settings of the greatest time not after the query. */
  lemma LookupIsBest<P>(h: seq<Entry<P>>, t: nat)
    requires Sorted(h)
    ensures Lookup(h, t) == ParamsOf(Best(h, t))
  {
    var i := BestIs(h, t);
    if i < |h| {
      FirstAtIs(h, i);
      MatchingTimeIs(h, t, i);
    } else if h != [] {
      assert !Visible(h[|h| - 1], t) && !Visible(h[0], t);
      assert LowerBound(h, t) == 0;
    }
  }

  lemma MatchingTimeIs<P>(h: seq<Entry<P>>, t: nat, i: nat)
    requires Sorted(h) && IsBest(h, t, i)
    ensures MatchingTime(h, t) == Some(h[i].time)
  {
    var last, lower := |h| - 1, LowerBound(h, t);
    if t == 0 || h[last].time <= t {
      assert Visible(h[last], t);
    } else {
      assert !Visible(h[last], t);
      assert lower < |h|;
      if h[lower].time == t {
        assert Visible(h[lower], t);
      } else {
        assert !Visible(h[lower], t);
        assert i < lower;
        assert Visible(h[lower - 1], t);
      }
    }
  }

  // --- insertion --------------------------------------------------------------------------------------

  function Insert<P>(h: seq<Entry<P>>, e: Entry<P>): (r: seq<Entry<P>>)
    ensures |r| == |h| + 1
  {
    var k := LowerBound(h, e.time);
    h[..k] + [e] + h[k..]
  }

  /** The inserted list, position by position. */
  function Shifted<P>(h: seq<Entry<P>>, k: nat, e: Entry<P>, i: nat): Entry<P>
    requires k <= |h| && i <= |h|
  {
    if i < k then h[i] else if i == k then e else h[i - 1]
  }

  lemma InsertShape<P>(h: seq<Entry<P>>, e: Entry<P>)
    requires Sorted(h)
    ensures var k, r := LowerBound(h, e.time), Insert(h, e);
            && (forall i :: 0 <= i < k ==> h[i].time < e.time) && (forall i :: k <= i < |h| ==> h[i].time >= e.time)
            && (forall i :: 0 <= i < |r| ==> r[i] == Shifted(h, k, e, i))
  {
    var k, r := LowerBound(h, e.time), Insert(h, e);
    forall i | 0 <= i < |r| ensures r[i] == Shifted(h, k, e, i) {
      if i > k { assert r[i] == h[k..][i - k - 1]; }
    }
  }

  lemma InsertKeepsSorted<P>(h: seq<Entry<P>>, e: Entry<P>)
    requires Sorted(h)
    ensures Sorted(Insert(h, e))
    ensures StrictlySorted(Insert(h, e)) <==> StrictlySorted(h) && !Stored(h, e.time)
  {
    var k, r := LowerBound(h, e.time), Insert(h, e);
    InsertShape(h, e);
    hide Insert, LowerBound;
    forall i, j | 0 <= i < j < |r|
      ensures r[i].time <= r[j].time && (StrictlySorted(h) && !Stored(h, e.time) ==> r[i].time < r[j].time)
    {
      assert r[i] == Shifted(h, k, e, i) && r[j] == Shifted(h, k, e, j);
    }
    if StrictlySorted(r) { InsertWasNew(h, e, k, r); }
  }

  lemma InsertWasNew<P>(h: seq<Entry<P>>, e: Entry<P>, k: nat, r: seq<Entry<P>>)
    requires k <= |h| && |r| == |h| + 1 && (forall i :: 0 <= i < |r| ==> r[i] == Shifted(h, k, e, i))
    requires StrictlySorted(r) && forall i :: 0 <= i < k ==> h[i].time < e.time
    ensures StrictlySorted(h) && !Stored(h, e.time)
  {
    forall i, j | 0 <= i < j < |h| ensures h[i].time < h[j].time {
      assert r[if i < k then i else i + 1].time < r[if j < k then j else j + 1].time;
    }
    forall i | 0 <= i < |h| ensures h[i].time != e.time {
      if i >= k { assert r[k].time < r[i + 1].time; }
    }
  }

  /** The newer entry wins where it is visible and not older than what would be found without it. */
  function Newer<P>(before: Option<Entry<P>>, e: Entry<P>, t: nat): Option<Entry<P>> {
    if Visible(e, t) && (before.None? || before.value.time <= e.time) then Some(e) else before
  }

  /** A new entry changes only the lookups from its own time up to the next stored time. */
  lemma InsertChangesOnly<P>(h: seq<Entry<P>>, e: Entry<P>, t: nat)
    requires Sorted(h)
    ensures Best(Insert(h, e), t) == Newer(Best(h, t), e, t)
  {
    var k, r := LowerBound(h, e.time), Insert(h, e);
    InsertShape(h, e);
    hide Insert, LowerBound, Best;
    var i := BestIs(h, t);
    if Visible(e, t) && (i >= |h| || h[i].time <= e.time) {
      NewIsBest(h, e, t, k, r);
      BestUnique(r, t, k);
    } else if i < |h| {
      OldIsBest(h, e, t, k, r, i);
      BestUnique(r, t, if i < k then i else i + 1);
    } else {
      NothingVisible(r, t);
    }
  }

  lemma NewIsBest<P>(h: seq<Entry<P>>, e: Entry<P>, t: nat, k: nat, r: seq<Entry<P>>)
    requires k <= |h| && |r| == |h| + 1 && (forall i :: 0 <= i < |r| ==> r[i] == Shifted(h, k, e, i))
    requires (forall i :: 0 <= i < k ==> h[i].time < e.time) && Visible(e, t)
    requires forall i :: 0 <= i < |h| && Visible(h[i], t) ==> h[i].time <= e.time
    ensures IsBest(r, t, k)
  {
    assert r[k] == e;
  }

  lemma OldIsBest<P>(h: seq<Entry<P>>, e: Entry<P>, t: nat, k: nat, r: seq<Entry<P>>, i: nat)
    requires k <= |h| && |r| == |h| + 1 && (forall j :: 0 <= j < |r| ==> r[j] == Shifted(h, k, e, j))
    requires IsBest(h, t, i) && (Visible(e, t) ==> e.time < h[i].time)
    ensures IsBest(r, t, if i < k then i else i + 1)
  {
    assert r[if i < k then i else i + 1] == h[i];
  }

  // --- an unused time ---------------------------------------------------------------------------------

  const TOLERANCE: nat := 1000

  function ResolveDuplicate<P>(h: seq<Entry<P>>, t: nat): nat {
    if h == [] then t
    else
      var lower, upper := LowerBound(h, t), UpperBound(h, t + TOLERANCE);
      if lower != upper && lower != |h| && upper > 0 then h[upper - 1].time + 1 else t
  }

  /** The last entry from t to the end of the tolerance. */
  predicate LastNear<P>(h: seq<Entry<P>>, t: nat, i: nat) {
    i < |h| && t <= h[i].time <= t + 1000 && forall j :: i < j < |h| ==> h[j].time > t + 1000
  }

  /** With nothing stored near, the time stays. Else it is the one just after the last entry near, and so
      moves forward by at most the tolerance and one; it is unused unless both the end of the tolerance and
      the time after it are taken. */
  lemma ResolvedTime<P>(h: seq<Entry<P>>, t: nat)
    requires Sorted(h)
    ensures t <= ResolveDuplicate(h, t) <= t + 1001
    ensures (forall i :: 0 <= i < |h| ==> !(t <= h[i].time <= t + TOLERANCE)) <==> ResolveDuplicate(h, t) == t
    ensures forall i: nat :: LastNear(h, t, i) ==> ResolveDuplicate(h, t) == h[i].time + 1
    ensures !Stored(h, ResolveDuplicate(h, t)) <==> !(Stored(h, t + TOLERANCE) && Stored(h, t + TOLERANCE + 1))
  {
    var lower, upper := LowerBound(h, t), UpperBound(h, t + TOLERANCE);
    BoundsOrdered(h, t, t + TOLERANCE + 1);
    if lower < upper {
      var m := h[upper - 1].time;
      assert t <= m <= t + TOLERANCE;
      if m < t + TOLERANCE {
        assert forall i :: 0 <= i < |h| ==> h[i].time <= m || h[i].time > t + TOLERANCE;
      }
    } else {
      assert forall i :: 0 <= i < |h| ==> h[i].time < t || h[i].time > t + TOLERANCE;
    }
  }

  // --- cleaning up ------------------------------------------------------------------------------------

  /** No expiry time means that nothing expires. */
  predicate Expired<P>(e: Entry<P>, now: nat, expiry: Option<nat>) {
    expiry.Some? && e.time + expiry.value <= now
  }

  function Unexpired<P>(h: seq<Entry<P>>, now: nat, expiry: Option<nat>): seq<Entry<P>> {
    if h == [] then []
    else
      var front := Unexpired(h[..|h| - 1], now, expiry);
      if Expired(h[|h| - 1], now, expiry) then front else front + [h[|h| - 1]]
  }

  /** How many of the oldest entries a history no longer needs. */
  function Superseded<P>(h: seq<Entry<P>>, now: nat): (n: nat)
    ensures n <= |h| && (h != [] ==> n < |h|)
  {
    var lower := LowerBound(h, now);
    if h == [] then 0
    else if lower == |h| then |h| - 1
    else if h[lower].time == now then lower
    else if lower != 0 && lower - 1 != 0 then lower - 1
    else 0
  }

  function Cleaned<P>(h: seq<Entry<P>>, now: nat, expiry: Option<nat>): seq<Entry<P>> {
    var kept := Unexpired(h, now, expiry);
    kept[Superseded(kept, now)..]
  }

  /** An entry is kept up to its time plus the expiry time, that moment excluded, and for ever without one. */
  lemma ExpiresOnTime<P>(e: Entry<P>, now: nat, expiry: Option<nat>)
    ensures Cleaned([e], now, expiry) == if expiry.Some? && now >= e.time + expiry.value then [] else [e]
  {
    assert [e][..0] == [];
    if Expired(e, now, expiry) {
      assert Unexpired([e], now, expiry) == [];
    } else {
      OnlyOneStays(e, now, expiry);
    }
  }

  /** On a sorted history the unexpired entries are a suffix. */
  lemma {:induction false} UnexpiredIsSuffix<P>(h: seq<Entry<P>>, now: nat, expiry: Option<nat>) returns (n: nat)
    requires Sorted(h)
    ensures n <= |h| && Unexpired(h, now, expiry) == h[n..]
    ensures forall i :: 0 <= i < |h| ==> (Expired(h[i], now, expiry) <==> i < n)
  {
    if h == [] { return 0; }
    var last := h[|h| - 1];
    if Expired(last, now, expiry) {
      assert forall i :: 0 <= i < |h| ==> h[i].time <= last.time;
      NoneLeft(h, now, expiry);
      n := |h|;
    } else {
      n := UnexpiredIsSuffix(h[..|h| - 1], now, expiry);
      SuffixOneMore(h, h[..|h| - 1], now, expiry, n);
    }
  }

  lemma SuffixOneMore<P>(h: seq<Entry<P>>, front: seq<Entry<P>>, now: nat, expiry: Option<nat>, n: nat)
    requires h != [] && front == h[..|h| - 1] && !Expired(h[|h| - 1], now, expiry) && n <= |front|
    requires Unexpired(front, now, expiry) == front[n..]
    requires forall i :: 0 <= i < |front| ==> (Expired(front[i], now, expiry) <==> i < n)
    ensures Unexpired(h, now, expiry) == h[n..]
    ensures forall i :: 0 <= i < |h| ==> (Expired(h[i], now, expiry) <==> i < n)
  {
    hide Expired;
    assert Unexpired(h, now, expiry) == Unexpired(front, now, expiry) + [h[|h| - 1]];
    DropOneMore(h, n);
    forall i | 0 <= i < |h| ensures Expired(h[i], now, expiry) <==> i < n {
      if i < |front| { assert front[i] == h[i]; }
    }
  }

  lemma DropOneMore<T>(s: seq<T>, n: nat)
    requires n < |s|
    ensures s[..|s| - 1][n..] + [s[|s| - 1]] == s[n..]
  {
  }

  lemma {:induction false} NoneLeft<P>(h: seq<Entry<P>>, now: nat, expiry: Option<nat>)
    requires forall i :: 0 <= i < |h| ==> Expired(h[i], now, expiry)
    ensures Unexpired(h, now, expiry) == []
  {
    if h != [] { NoneLeft(h[..|h| - 1], now, expiry); }
  }

  lemma CleanedIsSuffix<P>(h: seq<Entry<P>>, now: nat, expiry: Option<nat>) returns (n: nat)
    requires Sorted(h)
    ensures n <= |h| && Cleaned(h, now, expiry) == h[n..] && Sorted(h[n..])
    ensures (StrictlySorted(h) ==> StrictlySorted(h[n..]))
  {
    var m := UnexpiredIsSuffix(h, now, expiry);
    hide Unexpired, LowerBound;
    n := m + Superseded(h[m..], now);
    assert h[m..][n - m..] == h[n..];
    hide Superseded;
  }

  /** The newest past entry has a time of its own, or says the same as the one stored last for its time.
      It does not matter if there are fewer than two past entries or one for the present. */
  ghost predicate NewestPastStands<P>(h: seq<Entry<P>>, now: nat) {
    var past := LowerBound(h, now);
    || past < 2
    || (past < |h| && h[past].time == now)
    || h[past - 2].time < h[past - 1].time
    || FirstAt(h, h[past - 1].time) == Some(h[past - 1].params)
  }

  lemma NewestPastStandsIfBest<P>(h: seq<Entry<P>>, now: nat)
    requires Sorted(h)
    ensures var past := LowerBound(h, now);
            past >= 2 && !(past < |h| && h[past].time == now) ==>
              (NewestPastStands(h, now) <==> Best(h[..past], 0) == Some(h[past - 1]))
  {
    var past := LowerBound(h, now);
    if past >= 2 {
      FirstOfNewest(h, past);
    }
  }

  /** What is best of the oldest entries has the newest of their times, and is the first entry of it. */
  lemma FirstOfNewest<P>(h: seq<Entry<P>>, past: nat)
    requires Sorted(h) && 2 <= past <= |h|
    ensures var best, last := Best(h[..past], 0), h[past - 1];
            && best.Some? && best.value.time == last.time && FirstAt(h, last.time) == Some(best.value.params)
            && (h[past - 2].time < last.time ==> best.value == last)
  {
    hide Best, FirstAt;
    var i := SomethingVisible(h[..past], 0, past - 1);
    assert Visible(h[..past][past - 1], 0);
    assert h[i].time == h[past - 1].time;
    forall j | 0 <= j < i ensures h[j].time != h[i].time { assert Visible(h[..past][j], 0); }
    FirstAtIs(h, i);
  }

  lemma StrictlySortedStands<P>(h: seq<Entry<P>>, now: nat)
    requires StrictlySorted(h)
    ensures NewestPastStands(h, now)
  {
  }

  /** A query for the present or the future, or for the latest settings. */
  predicate FromNow(t: nat, now: nat) {
    t == 0 || t >= now
  }

  lemma BestOfSuffix<P>(h: seq<Entry<P>>, n: nat, t: nat, i: nat)
    requires n <= i && IsBest(h, t, i)
    ensures Best(h[n..], t) == Some(h[i])
  {
    assert IsBest(h[n..], t, i - n);
    BestUnique(h[n..], t, i - n);
  }

  /** Before the first present or future entry, a query from now on sees just the past ones. */
  lemma BestOfPast<P>(h: seq<Entry<P>>, past: nat, t: nat)
    requires past <= |h| && (forall i :: 0 <= i < past ==> Visible(h[i], t))
    requires (forall i :: past <= i < |h| ==> !Visible(h[i], t))
    ensures Best(h, t) == Best(h[..past], 0)
  {
    if past == 0 {
      NothingVisible(h, t);
    } else {
      var i := SomethingVisible(h, t, 0);
      assert IsBest(h[..past], 0, i);
      BestUnique(h[..past], 0, i);
    }
  }

  lemma {:induction false} NothingVisible<P>(h: seq<Entry<P>>, t: nat)
    requires forall i :: 0 <= i < |h| ==> !Visible(h[i], t)
    ensures Best(h, t) == None
  {
    if h != [] { NothingVisible(h[..|h| - 1], t); }
  }

  lemma SomethingVisible<P>(h: seq<Entry<P>>, t: nat, j: nat) returns (i: nat)
    requires j < |h| && Visible(h[j], t)
    ensures IsBest(h, t, i) && Best(h, t) == Some(h[i])
  {
    i := BestIs(h, t);
  }

  lemma CleanedAtTime<P>(h: seq<Entry<P>>, now: nat, t: nat)
    requires Sorted(h) && FromNow(t, now) && NewestPastStands(h, now)
    ensures Best(h[Superseded(h, now)..], t) == Best(h, t)
  {
    var past, n := LowerBound(h, now), Superseded(h, now);
    if n == 0 {
      assert h[0..] == h;
    } else {
      assert forall i :: 0 <= i < past ==> Visible(h[i], t);
      var i := BestIs(h, t);
      assert Visible(h[0], t);
      if i >= n {
        BestOfSuffix(h, n, t, i);
      } else {
        NewestPastStandsIfBest(h, now);
        NewestPastIsBest(h, past, t, i);
      }
    }
  }

  lemma NewestPastIsBest<P>(h: seq<Entry<P>>, past: nat, t: nat, i: nat)
    requires Sorted(h) && i < past - 1 < |h| && IsBest(h, t, i) && Best(h, t) == Some(h[i])
    requires (forall j :: 0 <= j < past ==> Visible(h[j], t)) && (past < |h| ==> h[past].time > h[past - 1].time)
    requires Some(h[past - 1]) == Best(h[..past], 0)
    ensures Best(h[past - 1..], t) == Best(h, t)
  {
    assert h[past - 1].time == h[i].time;
    forall j | past <= j < |h| ensures !Visible(h[j], t) { assert h[j].time >= h[past].time; }
    BestOfPast(h, past, t);
    var rest := h[past - 1..];
    assert IsBest(rest, t, 0);
    BestUnique(rest, t, 0);
  }

  /** Dropping what is superseded changes no lookup from now on exactly when the newest past time was
      stored once, or the entry first stored for it says what the last one says, or it does not matter. */
  lemma TrimKeepsLookups<P>(h: seq<Entry<P>>, now: nat)
    requires Sorted(h)
    ensures (forall t: nat :: FromNow(t, now) ==> Best(h[Superseded(h, now)..], t) == Best(h, t))
            <==> NewestPastStands(h, now)
  {
    hide Best;
    if NewestPastStands(h, now) {
      forall t: nat | FromNow(t, now) ensures Best(h[Superseded(h, now)..], t) == Best(h, t) {
        CleanedAtTime(h, now, t);
      }
    } else {
      OlderTwinFound(h, now);
    }
  }

  lemma OlderTwinFound<P>(h: seq<Entry<P>>, now: nat)
    requires Sorted(h) && !NewestPastStands(h, now)
    ensures FromNow(now, now) && Best(h[Superseded(h, now)..], now) != Best(h, now)
  {
    hide Best, LowerBound;
    var past := LowerBound(h, now);
    NewestPastStandsIfBest(h, now);
    hide NewestPastStands;
    forall j | past <= j < |h| ensures !Visible(h[j], now) { assert h[j].time >= h[past].time > now; }
    BestOfPast(h, past, now);
    var rest := h[past - 1..];
    assert IsBest(rest, now, 0) by {
      forall j | 0 < j < |rest| ensures !Visible(rest[j], now) { assert rest[j] == h[past - 1 + j]; }
    }
    BestUnique(rest, now, 0);
  }

  /** Expiry removes an answer exactly when the entry that gave it has expired; it uncovers no older one. */
  lemma ExpiryFilters<P>(h: seq<Entry<P>>, now: nat, expiry: Option<nat>, t: nat)
    requires Sorted(h)
    ensures Best(Unexpired(h, now, expiry), t)
            == match Best(h, t) case None => None case Some(e) => if Expired(e, now, expiry) then None else Some(e)
  {
    var n := UnexpiredIsSuffix(h, now, expiry);
    hide Best, Unexpired;
    var i := BestIs(h, t);
    if n <= i < |h| {
      BestOfSuffix(h, n, t, i);
    } else {
      forall j | 0 <= j < |h[n..]| ensures !Visible(h[n..][j], t) {
        assert h[n..][j] == h[n + j];
        if i < |h| {
          assert h[i].time <= h[n + j].time && !Expired(h[n + j], now, expiry) && Expired(h[i], now, expiry);
        }
      }
      NothingVisible(h[n..], t);
    }
  }

  /** With no two entries of the same time, a lookup from now on gives after cleaning what it gave before,
      or nothing if that entry has expired. */
  lemma CleanupKeepsLookups<P>(h: seq<Entry<P>>, now: nat, expiry: Option<nat>, t: nat)
    requires StrictlySorted(h) && FromNow(t, now)
    ensures Lookup(Cleaned(h, now, expiry), t)
            == match Best(h, t) case None => None case Some(e) => if Expired(e, now, expiry) then None else Lookup(h, t)
  {
    var n := UnexpiredIsSuffix(h, now, expiry);
    var m := CleanedIsSuffix(h, now, expiry);
    hide Best, Unexpired, Lookup, Superseded;
    StrictlySortedStands(h[n..], now);
    CleanedAtTime(h[n..], now, t);
    ExpiryFilters(h, now, expiry, t);
    LookupIsBest(h, t);
    LookupIsBest(h[m..], t);
  }

  /** Cleaning again at the same time changes nothing, and at most one entry at or before now is left. */
  lemma CleanedIsMinimal<P>(h: seq<Entry<P>>, now: nat, expiry: Option<nat>)
    requires StrictlySorted(h)
    ensures var c := Cleaned(h, now, expiry);
            && Cleaned(c, now, expiry) == c && StrictlySorted(c)
            && (forall i :: 1 <= i < |c| ==> c[i].time > now)
  {
    var n := UnexpiredIsSuffix(h, now, expiry);
    var c := Cleaned(h, now, expiry);
    TrimmedTail(h[n..], now);
    forall i | 0 <= i < |c| ensures !Expired(c[i], now, expiry) { assert c[i] == h[n + Superseded(h[n..], now) + i]; }
    hide Unexpired, Superseded, Expired, StrictlySorted;
    CleanedAgain(c, now, expiry);
  }

  lemma CleanedAgain<P>(c: seq<Entry<P>>, now: nat, expiry: Option<nat>)
    requires forall i :: 0 <= i < |c| ==> !Expired(c[i], now, expiry)
    requires forall i :: 1 <= i < |c| ==> c[i].time > now
    ensures Cleaned(c, now, expiry) == c
  {
    NoneExpired(c, now, expiry);
    PastCount(c, now);
  }

  lemma TrimmedTail<P>(h: seq<Entry<P>>, now: nat)
    requires StrictlySorted(h)
    ensures var c := h[Superseded(h, now)..]; StrictlySorted(c) && forall i :: 1 <= i < |c| ==> c[i].time > now
  {
    var past, n := LowerBound(h, now), Superseded(h, now);
    hide LowerBound;
    forall i | 1 <= i < |h[n..]| ensures h[n..][i].time > now {
      assert h[n..][i] == h[n + i];
      if past < |h| { assert h[past].time >= now; }
    }
  }

  lemma {:induction false} NoneExpired<P>(h: seq<Entry<P>>, now: nat, expiry: Option<nat>)
    requires forall i :: 0 <= i < |h| ==> !Expired(h[i], now, expiry)
    ensures Unexpired(h, now, expiry) == h
  {
    if h != [] { NoneExpired(h[..|h| - 1], now, expiry); }
  }

  lemma PastCount<P>(c: seq<Entry<P>>, now: nat)
    requires forall i :: 1 <= i < |c| ==> c[i].time > now
    ensures Superseded(c, now) == 0
  {
    if c != [] { BoundIs(c, now, if c[0].time < now then 1 else 0); }
  }

  // --- whole runs -------------------------------------------------------------------------------------

  /** Storing at a time, or cleaning up at a time. */
  datatype Event<P> = Store(entry: Entry<P>) | Clean(now: nat)

  function History<P>(events: seq<Event<P>>, expiry: Option<nat>): seq<Entry<P>> {
    if events == [] then []
    else
      var before := History(events[..|events| - 1], expiry);
      match events[|events| - 1]
      case Store(e) => Insert(before, e)
      case Clean(now) => Cleaned(before, now, expiry)
  }

  /** The answer of a log that drops nothing but an answer that has expired at a cleaning: of all visible
      entries stored so far the one of the greatest time, and of several with that time the one stored last. */
  function LogAnswer<P>(events: seq<Event<P>>, expiry: Option<nat>, t: nat): Option<Entry<P>> {
    if events == [] then None
    else
      var before := LogAnswer(events[..|events| - 1], expiry, t);
      match events[|events| - 1]
      case Store(e) => Newer(before, e, t)
      case Clean(now) => Surviving(before, now, expiry)
  }

  function Surviving<P>(e: Option<Entry<P>>, now: nat, expiry: Option<nat>): Option<Entry<P>> {
    if e.Some? && Expired(e.value, now, expiry) then None else e
  }

  function LastClean<P>(events: seq<Event<P>>): nat {
    if events == [] then 0
    else if events[|events| - 1].Clean? then events[|events| - 1].now
    else LastClean(events[..|events| - 1])
  }

  predicate ClockForward<P>(events: seq<Event<P>>) {
    events == [] ||
    (var front, last := events[..|events| - 1], events[|events| - 1];
     ClockForward(front) && (last.Clean? ==> LastClean(front) <= last.now))
  }

  /** The clock does not run backwards, and every cleaning meets a newest past entry that stands. */
  ghost predicate Orderly<P>(events: seq<Event<P>>, expiry: Option<nat>) {
    events == [] ||
    (var front, last := events[..|events| - 1], events[|events| - 1];
     && Orderly(front, expiry)
     && (last.Clean? ==> LastClean(front) <= last.now
                         && NewestPastStands(Unexpired(History(front, expiry), last.now, expiry), last.now)))
  }

  lemma {:induction false} HistorySorted<P>(events: seq<Event<P>>, expiry: Option<nat>)
    ensures Sorted(History(events, expiry))
  {
    if events != [] {
      var before := History(events[..|events| - 1], expiry);
      HistorySorted(events[..|events| - 1], expiry);
      match events[|events| - 1]
      case Store(e) => InsertKeepsSorted(before, e);
      case Clean(now) => var n := CleanedIsSuffix(before, now, expiry);
    }
  }

  /** A cleaning that meets a newest past entry that stands changes an answer only by its expiry. */
  lemma CleaningAnswers<P>(h: seq<Entry<P>>, now: nat, expiry: Option<nat>, t: nat)
    requires Sorted(h) && FromNow(t, now) && NewestPastStands(Unexpired(h, now, expiry), now)
    ensures Best(Cleaned(h, now, expiry), t) == Surviving(Best(h, t), now, expiry)
  {
    var n := UnexpiredIsSuffix(h, now, expiry);
    hide Best, Unexpired, Superseded, NewestPastStands;
    ExpiryFilters(h, now, expiry, t);
    CleanedAtTime(h[n..], now, t);
  }

  /** Through any orderly run of storing and cleaning, with any expiry time, every lookup from the last
      cleaning on answers as the log would. */
  lemma {:induction false} HistoryAnswersLikeLog<P>(events: seq<Event<P>>, expiry: Option<nat>, t: nat)
    requires Orderly(events, expiry) && FromNow(t, LastClean(events))
    ensures Best(History(events, expiry), t) == LogAnswer(events, expiry, t)
    ensures Lookup(History(events, expiry), t) == ParamsOf(LogAnswer(events, expiry, t))
  {
    hide Best, Lookup, Cleaned, Insert, NewestPastStands, Unexpired;
    HistorySorted(events, expiry);
    LookupIsBest(History(events, expiry), t);
    if events == [] {
      NothingVisible<P>([], t);
    } else {
      var front := events[..|events| - 1];
      HistorySorted(front, expiry);
      HistoryAnswersLikeLog(front, expiry, t);
      match events[|events| - 1]
      case Store(e) => InsertChangesOnly(History(front, expiry), e, t);
      case Clean(now) => CleaningAnswers(History(front, expiry), now, expiry, t);
    }
  }

  /** No two entries are stored for the same time. */
  ghost predicate DistinctTimes<P>(events: seq<Event<P>>) {
    forall i, j :: 0 <= i < j < |events| && events[i].Store? && events[j].Store? ==>
      events[i].entry.time != events[j].entry.time
  }

  /** Where an entry of the longer history comes from. */
  lemma InsertedFrom<P>(h: seq<Entry<P>>, e: Entry<P>, i: nat) returns (j: nat)
    requires Sorted(h) && i < |Insert(h, e)|
    ensures if j < |h| then Insert(h, e)[i] == h[j] else Insert(h, e)[i] == e
  {
    var k := LowerBound(h, e.time);
    InsertShape(h, e);
    hide Insert, LowerBound, Sorted;
    assert Insert(h, e)[i] == Shifted(h, k, e, i);
    j := if i < k then i else if i == k then |h| else i - 1;
  }

  lemma {:induction false} HistoryFromStores<P>(events: seq<Event<P>>, expiry: Option<nat>, i: nat) returns (j: nat)
    requires i < |History(events, expiry)|
    ensures j < |events| && events[j] == Store(History(events, expiry)[i])
  {
    hide Insert, Cleaned, Sorted;
    var front, last := events[..|events| - 1], events[|events| - 1];
    var before := History(front, expiry);
    HistorySorted(front, expiry);
    match last
    case Store(e) =>
      j := InsertedFrom(before, e, i);
      if j < |before| { j := HistoryFromStores(front, expiry, j); } else { j := |front|; }
    case Clean(now) =>
      var n := CleanedIsSuffix(before, now, expiry);
      j := HistoryFromStores(front, expiry, n + i);
  }

  lemma {:induction false} DistinctTimesStrict<P>(events: seq<Event<P>>, expiry: Option<nat>)
    requires DistinctTimes(events)
    ensures StrictlySorted(History(events, expiry))
  {
    if events != [] {
      var front, last := events[..|events| - 1], events[|events| - 1];
      var before := History(front, expiry);
      DistinctTimesStrict(front, expiry);
      HistorySorted(front, expiry);
      match last
      case Store(e) =>
        forall i | 0 <= i < |before| ensures before[i].time != e.time {
          var j := HistoryFromStores(front, expiry, i);
          assert events[j] == front[j];
        }
        InsertKeepsSorted(before, e);
      case Clean(now) =>
        var n := CleanedIsSuffix(before, now, expiry);
    }
  }

  /** Storing every time once and a clock that does not run backwards make a run orderly. */
  lemma {:induction false} DistinctTimesOrderly<P>(events: seq<Event<P>>, expiry: Option<nat>)
    requires DistinctTimes(events) && ClockForward(events)
    ensures Orderly(events, expiry)
  {
    if events != [] {
      var front, last := events[..|events| - 1], events[|events| - 1];
      DistinctTimesOrderly(front, expiry);
      if last.Clean? {
        DistinctTimesStrict(front, expiry);
        var n := UnexpiredIsSuffix(History(front, expiry), last.now, expiry);
        StrictlySortedStands(History(front, expiry)[n..], last.now);
      }
    }
  }

  /** `set` for a past time that is stored already and is the newest: the new parameters win at first,
      but the cleaning at the end of `set` keeps the old ones, which the one after the first `set` kept. */
  lemma RepeatedTimeIsLost<P>(old': P, new': P, time: nat, before: nat, now: nat, expiry: Option<nat>)
    requires old' != new' && time < now && before <= now && (expiry.Some? ==> time + expiry.value > now)
    ensures var events := [Store(Entry(time, old')), Clean(before), Store(Entry(time, new'))];
            && Lookup(History(events, expiry), now) == Some(new')
            && Lookup(History(events + [Clean(now)], expiry), now) == Some(old')
  {
    var events := [Store(Entry(time, old')), Clean(before), Store(Entry(time, new'))];
    var both := [Entry(time, new'), Entry(time, old')];
    TwoStored(Entry(time, old'), before, Entry(time, new'), expiry);
    hide Insert, Cleaned, Lookup;
    assert (events + [Clean(now)])[..3] == events;
    assert History(events + [Clean(now)], expiry) == Cleaned(both, now, expiry);
    OlderTwinKept(old', new', time, now, expiry);
    PastLookup(both, now);
    PastLookup([Entry(time, old')], now);
  }

  /** A second entry for a time goes before the first. */
  lemma TwoStored<P>(first: Entry<P>, between: nat, second: Entry<P>, expiry: Option<nat>)
    requires first.time == second.time && !Expired(first, between, expiry)
    ensures History([Store(first), Clean(between), Store(second)], expiry) == [second, first]
  {
    var events := [Store(first), Clean(between), Store(second)];
    hide Insert, Cleaned;
    assert events[..2] == [Store(first), Clean(between)] && events[..2][..1] == [Store(first)];
    assert events[..2][..1][..0] == [];
    BoundIs<P>([], first.time, 0);
    BoundIs([first], second.time, 0);
    InsertFront([], first);
    InsertFront([first], second);
    assert [first] + [] == [first] && [second] + [first] == [second, first];
    assert History(events[..2][..1], expiry) == [first];
    OnlyOneStays(first, between, expiry);
    assert History(events[..2], expiry) == [first];
  }

  lemma OnlyOneStays<P>(e: Entry<P>, now: nat, expiry: Option<nat>)
    requires !Expired(e, now, expiry)
    ensures Cleaned([e], now, expiry) == [e]
  {
    assert [e][..0] == [];
    assert Unexpired([e], now, expiry) == [e];
  }

  lemma InsertFront<P>(h: seq<Entry<P>>, e: Entry<P>)
    requires LowerBound(h, e.time) == 0
    ensures Insert(h, e) == [e] + h
  {
  }

  lemma OlderTwinKept<P>(old': P, new': P, time: nat, now: nat, expiry: Option<nat>)
    requires time < now && (expiry.Some? ==> time + expiry.value > now)
    ensures Cleaned([Entry(time, new'), Entry(time, old')], now, expiry) == [Entry(time, old')]
  {
    var both := [Entry(time, new'), Entry(time, old')];
    BoundIs(both, now, 2);
    NoneExpired(both, now, expiry);
    assert both[1..] == [Entry(time, old')];
  }

  /** If everything stored is of one past time, a lookup finds the first entry. */
  lemma PastLookup<P>(h: seq<Entry<P>>, now: nat)
    requires h != [] && h[|h| - 1].time == h[0].time <= now
    ensures Lookup(h, now) == Some(h[0].params)
  {
  }
}
