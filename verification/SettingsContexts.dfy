/** The histories of all contexts, updated in place, and the search for the context to use. */
module SettingsContexts {
  import opened Options
  import opened TimedSettings

  function HistoryOf<P>(stored: map<string, seq<Entry<P>>>, context: string): seq<Entry<P>> {
    if context in stored then stored[context] else []
  }

  /** All histories cleaned. */
  function AllCleaned<P>(stored: map<string, seq<Entry<P>>>, now: nat,
                         expiry: Option<nat>): map<string, seq<Entry<P>>> {
    map context | context in stored :: Cleaned(stored[context], now, expiry)
  }

  lemma CleanedSorted<P>(stored: map<string, seq<Entry<P>>>, now: nat, expiry: Option<nat>)
    requires forall context :: context in stored ==> Sorted(stored[context])
    ensures forall context :: context in stored ==> Sorted(AllCleaned(stored, now, expiry)[context])
  {
    hide Sorted;
    forall context | context in stored ensures Sorted(AllCleaned(stored, now, expiry)[context]) {
      var n := CleanedIsSuffix(stored[context], now, expiry);
    }
  }

  function PositionAt<P>(h: seq<Entry<P>>, time: nat): (k: nat)
    ensures k <= |h| && (k < |h| ==> h[k].time == time) && forall i :: 0 <= i < k ==> h[i].time != time
  {
    if h == [] || h[0].time == time then 0 else PositionAt(h[1..], time) + 1
  }

  /** The history without the first entry of a time, if there is one. */
  function Without<P>(h: seq<Entry<P>>, time: nat): seq<Entry<P>> {
    var k := PositionAt(h, time);
    if k < |h| then h[..k] + h[k + 1..] else h
  }

  function ContextRemoved<P>(stored: map<string, seq<Entry<P>>>, context: string,
                             time: nat): map<string, seq<Entry<P>>> {
    var rest := Without(HistoryOf(stored, context), time);
    if rest == [] then stored - {context} else stored[context := rest]
  }

  /** Of the one context the first entry of the time goes, and the context with its last entry; the others
      stay as they are. */
  lemma RemovalTakesOne<P>(stored: map<string, seq<Entry<P>>>, context: string, time: nat) returns (k: nat)
    requires context in stored && Stored(stored[context], time)
    ensures var h, after := stored[context], ContextRemoved(stored, context, time);
            && k < |h| && h[k].time == time && (forall i :: 0 <= i < k ==> h[i].time != time)
            && after.Keys == (if |h| == 1 then stored.Keys - {context} else stored.Keys)
            && (|h| > 1 ==> after[context] == h[..k] + h[k + 1..])
            && (forall other :: other in stored && other != context ==>
                  other in after && after[other] == stored[other])
  {
    k := PositionAt(stored[context], time);
  }

  /** Cleaning looks at every context by itself; one whose entries have all expired stays, without any. */
  lemma EveryContextCleaned<P>(stored: map<string, seq<Entry<P>>>, now: nat, expiry: Option<nat>)
    ensures AllCleaned(stored, now, expiry).Keys == stored.Keys
    ensures forall context :: context in stored ==>
              var h, after := stored[context], AllCleaned(stored, now, expiry)[context];
              && after == Cleaned(h, now, expiry)
              && (after == [] <==> forall e :: e in h ==> Expired(e, now, expiry))
  {
    forall context | context in stored
      ensures var h := stored[context];
              Cleaned(h, now, expiry) == [] <==> forall e :: e in h ==> Expired(e, now, expiry)
    {
      AllExpired(stored[context], now, expiry);
    }
  }

  lemma {:induction false} AllExpired<P>(h: seq<Entry<P>>, now: nat, expiry: Option<nat>)
    ensures Unexpired(h, now, expiry) == [] <==> forall e :: e in h ==> Expired(e, now, expiry)
  {
    if h != [] {
      AllExpired(h[..|h| - 1], now, expiry);
      assert h == h[..|h| - 1] + [h[|h| - 1]];
    }
  }

  lemma {:induction false} PositionIs<P>(h: seq<Entry<P>>, time: nat, k: nat)
    requires k < |h| && h[k].time == time && forall i :: 0 <= i < k ==> h[i].time != time
    ensures PositionAt(h, time) == k
  {
    if k > 0 { PositionIs(h[1..], time, k - 1); }
  }

  /** Removing what has just been stored gives back the history it was stored in. */
  lemma RemoveUndoesInsert<P>(h: seq<Entry<P>>, e: Entry<P>)
    requires Sorted(h)
    ensures Without(Insert(h, e), e.time) == h
  {
    hide LowerBound, PositionAt, Sorted;
    var k, r := LowerBound(h, e.time), Insert(h, e);
    InsertShape(h, e);
    forall i | 0 <= i < k ensures r[i].time != e.time { assert r[i] == Shifted(h, k, e, i); }
    assert r[k] == Shifted(h, k, e, k);
    PositionIs(r, e.time, k);
    PutAndTaken(h, k, e);
  }

  lemma PutAndTaken<T>(s: seq<T>, k: nat, x: T)
    requires k <= |s|
    ensures var r := s[..k] + [x] + s[k..]; r[..k] + r[k + 1..] == s
  {
  }

  /** Attempt a asked position i, and every question before that was answered with "no". */
  ghost predicate FirstAnswer(order: seq<string>, ask: (string, nat) -> Option<bool>, a: nat, i: nat) {
    && i < |order| && ask(order[i], a) != Some(false)
    && (forall b: nat, j: nat :: b < a && j < |order| ==> ask(order[j], b) == Some(false))
    && (forall j: nat :: j < i ==> ask(order[j], a) == Some(false))
  }

  class SettingsStore<P(==)> {
    var stored: map<string, seq<Entry<P>>>
    const expiryTime: Option<nat>
    const matches: (string, string, nat) -> Option<bool>

    ghost predicate Valid()
      reads this
    {
      forall context :: context in stored ==> Sorted(stored[context])
    }

    constructor (expiryTime: Option<nat>, matches: (string, string, nat) -> Option<bool>)
      ensures Valid() && stored == map[] && this.expiryTime == expiryTime && this.matches == matches
    {
      this.expiryTime, this.matches, stored := expiryTime, matches, map[];
    }

    /** The wanted context if it is stored. Otherwise the predicate is asked about every stored context,
        attempt after attempt, until it gives up or agrees; it must do so at some attempt. */
    method FindBestMatchCtx(order: seq<string>, wanted: string, ghost limit: nat) returns (found: Option<string>)
      requires forall context :: context in order <==> context in stored
      requires order != [] && wanted !in stored
               ==> exists i :: 0 <= i < |order| && matches(order[i], wanted, limit) != Some(false)
      ensures order == [] ==> found == None
      ensures wanted in stored ==> found == Some(wanted)
      ensures order != [] && wanted !in stored ==>
                exists a: nat, i: nat :: FirstAnswer(order, (c: string, n: nat) => matches(c, wanted, n), a, i)
                  && found == if matches(order[i], wanted, a) == Some(true) then Some(order[i]) else None
    {
      if order == [] { return None; }
      if wanted in stored { return Some(wanted); }
      ghost var ask := (c: string, n: nat) => matches(c, wanted, n);
      var attempt: nat := 0;
      while true
        invariant attempt <= limit
        invariant forall b: nat, j: nat :: b < attempt && j < |order| ==> ask(order[j], b) == Some(false)
        decreases limit - attempt
      {
        var i := 0;
        while i < |order|
          invariant 0 <= i <= |order|
          invariant forall j: nat :: j < i ==> ask(order[j], attempt) == Some(false)
        {
          var answer := matches(order[i], wanted, attempt);
          if answer.None? || answer.value {
            assert FirstAnswer(order, ask, attempt, i);
            found := if answer.None? then None else Some(order[i]);
            return;
          }
          assert answer == Some(false) == ask(order[i], attempt);
          i := i + 1;
        }
        attempt := attempt + 1;
      }
    }

    /** What holds in a stored context at a time. */
    method GetStoredParameters(context: string, time: nat) returns (params: Option<P>)
      requires Valid()
      ensures params == Lookup(HistoryOf(stored, context), time)
      ensures params == ParamsOf(Best(HistoryOf(stored, context), time))
    {
      if context !in stored || stored[context] == [] {
        assert HistoryOf(stored, context) == [];
        return None;
      }
      var h := stored[context];
      LookupIsBest(h, time);
      var matching: Option<nat> := None;
      if time == 0 || h[|h| - 1].time <= time {
        matching := Some(h[|h| - 1].time);
      } else {
        var lower := FindLowerBound(h, time);
        if lower < |h| && h[lower].time == time {
          matching := Some(h[lower].time);
        } else if lower != 0 {
          matching := Some(h[lower - 1].time);
        }
      }
      assert matching == MatchingTime(h, time);
      params := if matching.Some? then FirstAt(h, matching.value) else None;
    }

    method ResolveDuplicateTimestamp(context: string, time: nat) returns (resolved: nat)
      requires Valid()
      ensures resolved == ResolveDuplicate(HistoryOf(stored, context), time)
    {
      hide LowerBound, Sorted;
      resolved := time;
      if context !in stored || stored[context] == [] { return; }
      var h := stored[context];
      var lower := FindLowerBound(h, time);
      var upper := FindLowerBound(h, time + TOLERANCE + 1);
      BoundsOrdered(h, time, time + TOLERANCE + 1);
      if lower != upper && lower != |h| { resolved := h[upper - 1].time + 1; }
    }

    method AddStoredParameters(params: P, context: string, time: nat)
      requires Valid()
      modifies this`stored
      ensures Valid()
      ensures stored == old(stored)[context := Insert(HistoryOf(old(stored), context), Entry(time, params))]
    {
      var h := HistoryOf(stored, context);
      InsertKeepsSorted(h, Entry(time, params));
      var k := FindLowerBound(h, time);
      stored := stored[context := h[..k] + [Entry(time, params)] + h[k..]];
    }

    method RemoveExpiredStoredParameters(now: nat)
      requires Valid()
      modifies this`stored
      ensures Valid()
      ensures stored == AllCleaned(old(stored), now, expiryTime)
    {
      hide Cleaned, Sorted;
      ghost var before := stored;
      var left := stored.Keys;
      while left != {}
        invariant left <= before.Keys && stored.Keys == before.Keys
        invariant forall context :: context in left ==> stored[context] == before[context]
        invariant forall context ::
                    context in before && context !in left
                    ==> stored[context] == Cleaned(before[context], now, expiryTime)
        decreases |left|
      {
        var context :| context in left;
        var h := RemoveExpired(stored[context], now);
        stored := stored[context := h];
        left := left - {context};
      }
      CleanedSorted(before, now, expiryTime);
      assert stored == AllCleaned(before, now, expiryTime);
    }

    method RemoveExpired(h: seq<Entry<P>>, now: nat) returns (r: seq<Entry<P>>)
      requires Sorted(h)
      ensures r == Cleaned(h, now, expiryTime)
    {
      var kept := h;
      if expiryTime.Some? {
        kept := DropExpired(h, now);
      } else {
        NoneExpired(h, now, expiryTime);
      }
      ghost var m := UnexpiredIsSuffix(h, now, expiryTime);
      hide LowerBound, Unexpired, Expired;
      r := kept;
      if kept == [] { return; }
      var lower := FindLowerBound(kept, now);
      if lower == |kept| {
        r := kept[|kept| - 1..];
      } else if kept[lower].time == now {
        r := kept[lower..];
      } else if lower != 0 && lower - 1 != 0 {
        r := kept[lower - 1..];
      }
    }

    method DropExpired(h: seq<Entry<P>>, now: nat) returns (r: seq<Entry<P>>)
      requires expiryTime.Some?
      ensures r == Unexpired(h, now, expiryTime)
    {
      r := [];
      for i := 0 to |h|
        invariant r == Unexpired(h[..i], now, expiryTime)
      {
        assert h[..i + 1][..i] == h[..i];
        if h[i].time + expiryTime.value > now { r := r + [h[i]]; }
      }
      assert h[..|h|] == h;
    }

    /** The default context cannot be removed, and neither can a time that is not stored. Time 0 stands
        for the present. */
    method RemoveContext(context: string, time: nat, now: nat) returns (removed: bool)
      requires Valid()
      modifies this`stored
      ensures Valid()
      ensures var at := if time == 0 then now else time;
              && (removed <==> context != "" && Stored(HistoryOf(old(stored), context), at))
              && stored == if removed then ContextRemoved(old(stored), context, at) else old(stored)
    {
      if context == "" { return false; }
      if context !in stored { return false; }
      var h := stored[context];
      var k := PositionAt(h, if time == 0 then now else time);
      if k == |h| { return false; }
      h := h[..k] + h[k + 1..];
      stored := if h == [] then stored - {context} else stored[context := h];
      removed := true;
    }
  }
}
