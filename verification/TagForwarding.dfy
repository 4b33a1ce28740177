/** Which tags a block forwards, and with which values. */
module TagForwarding {
  import opened Options

  /** Single and double precision numbers are different values: only a single one is ever rescaled. */
  datatype Value = Float(x: real) | Double(d: real) | Text(s: string)

  /** A tag's map as it is walked: its keys are distinct. */
  datatype Pair = Pair(key: string, value: Value)

  type Tag = seq<Pair>

  ghost predicate DistinctKeys(tag: Tag) {
    forall i, j :: 0 <= i < j < |tag| ==> tag[i].key != tag[j].key
  }

  const PREFIX := "gr:"
  const SAMPLE_RATE := "sample_rate"

  /** The block: its members that can be set, its active settings, the keys it forwards beside the
      prefixed ones, and its chunk sizes if it resamples. */
  datatype Block = Block(members: set<string>, settings: map<string, Value>, supplement: set<string>,
                         resampling: bool, inChunk: nat, outChunk: nat) {
    predicate IsForwarded(key: string) {
      PREFIX <= key || key in supplement
    }

    predicate Converts(key: string) {
      resampling && inChunk != outChunk && SettingsKey(key) == SAMPLE_RATE
    }

    /** `insertOutputValue`: a sample rate in single precision is rescaled by the chunk sizes. */
    function OutputValue(key: string, value: Value): Value {
      if Converts(key) && inChunk != 0 && value.Float? then Float((outChunk as real / inChunk as real) * value.x)
      else value
    }

    /** The value the block has set for a key, if it has one. */
    function Setting(key: string): Option<Value> {
      var field := SettingsKey(key);
      if field in members && field in settings then Some(settings[field]) else None
    }

    /** What forwarding means: the block's own setting if it has one, else the tag's value, with the
        sample rate rescaled. */
    function Forwarded(p: Pair): Value {
      OutputValue(p.key, match Setting(p.key) case Some(v) => v case None => p.value)
    }
  }

  function SettingsKey(key: string): string {
    if PREFIX <= key then key[|PREFIX|..] else key
  }

  function AsMap(tag: Tag): map<string, Value> {
    if tag == [] then map[] else AsMap(tag[..|tag| - 1])[tag[|tag| - 1].key := tag[|tag| - 1].value]
  }

  /** The forwarded keys with their forwarded values. */
  function ByRule(b: Block, tag: Tag): map<string, Value> {
    if tag == [] then map[]
    else
      var before, p := ByRule(b, tag[..|tag| - 1]), tag[|tag| - 1];
      if b.IsForwarded(p.key) then before[p.key := b.Forwarded(p)] else before
  }

  predicate AnyForwarded(b: Block, tag: Tag) {
    exists i :: 0 <= i < |tag| && b.IsForwarded(tag[i].key)
  }

  /** Forwarding would change this pair. */
  predicate Substitutes(b: Block, p: Pair) {
    b.Converts(p.key) || (b.Setting(p.key).Some? && b.Setting(p.key).value != p.value)
  }

  /** The branches by which the source finds out. */
  lemma SubstitutesBranches(b: Block, p: Pair)
    ensures var field := SettingsKey(p.key);
            (Substitutes(b, p)
             <==> b.Converts(p.key)
                  || (field in b.members && field in b.settings && b.settings[field] != p.value))
  {
  }

  lemma UnchangedPair(b: Block, p: Pair)
    requires !Substitutes(b, p)
    ensures b.Forwarded(p) == p.value == b.OutputValue(p.key, p.value)
  {
  }

  /** A tag all of whose pairs are forwarded unchanged is its own forwarded map. */
  lemma {:induction false} VerbatimIsByRule(b: Block, tag: Tag)
    requires forall i :: 0 <= i < |tag| ==> b.IsForwarded(tag[i].key) && !Substitutes(b, tag[i])
    ensures AsMap(tag) == ByRule(b, tag)
  {
    if tag != [] {
      VerbatimIsByRule(b, tag[..|tag| - 1]);
      UnchangedPair(b, tag[|tag| - 1]);
    }
  }

  /** `publishFiltered`: a tag without forwarded keys is not published. Any other is published verbatim if
      nothing in it changes, and rebuilt otherwise; both ways it is the tag the rule gives. */
  method PublishFiltered(b: Block, tag: Tag) returns (published: Option<map<string, Value>>)
    ensures published == if AnyForwarded(b, tag) then Some(ByRule(b, tag)) else None
  {
    hide Substitutes, Block.IsForwarded, Block.Converts, SettingsKey, AsMap, ByRule;
    var anyForward, anyDrop, anySubstitute := false, false, false;
    for i := 0 to |tag|
      invariant anyForward <==> exists j :: 0 <= j < i && b.IsForwarded(tag[j].key)
      invariant anyDrop <==> exists j :: 0 <= j < i && !b.IsForwarded(tag[j].key)
      invariant anySubstitute <==> exists j :: 0 <= j < i && b.IsForwarded(tag[j].key) && Substitutes(b, tag[j])
    {
      var p := tag[i];
      if !b.IsForwarded(p.key) {
        anyDrop := true;
        continue;
      }
      anyForward := true;
      SubstitutesBranches(b, p);
      var field := SettingsKey(p.key);
      if field in b.members {
        if b.Converts(p.key) {
          anySubstitute := true;
        } else if field in b.settings && b.settings[field] != p.value {
          anySubstitute := true;
        }
      } else if b.Converts(p.key) {
        anySubstitute := true;
      }
    }
    if !anyForward { return None; }
    if !anyDrop && !anySubstitute {
      VerbatimIsByRule(b, tag);
      return Some(AsMap(tag));
    }
    var dst := Rebuilt(b, tag, anySubstitute);
    published := Some(dst);
  }

  method Rebuilt(b: Block, tag: Tag, anySubstitute: bool) returns (dst: map<string, Value>)
    requires anySubstitute <==> exists j :: 0 <= j < |tag| && b.IsForwarded(tag[j].key) && Substitutes(b, tag[j])
    ensures dst == ByRule(b, tag)
  {
    dst := map[];
    for i := 0 to |tag|
      invariant dst == ByRule(b, tag[..i])
    {
      var p := tag[i];
      assert tag[..i + 1][..i] == tag[..i] && tag[..i + 1][i] == p;
      if !b.IsForwarded(p.key) { continue; }
      var field := SettingsKey(p.key);
      if anySubstitute && field in b.members && field in b.settings {
        dst := dst[p.key := b.OutputValue(p.key, b.settings[field])];
      } else {
        if !anySubstitute { UnchangedPair(b, p); }
        dst := dst[p.key := b.OutputValue(p.key, p.value)];
      }
    }
    assert tag[..|tag|] == tag;
  }

  /** What is published has exactly the forwarded keys. */
  lemma {:induction false} ByRuleKeys(b: Block, tag: Tag, i: nat)
    requires DistinctKeys(tag) && i < |tag|
    ensures tag[i].key in ByRule(b, tag) <==> b.IsForwarded(tag[i].key)
    ensures b.IsForwarded(tag[i].key) ==> ByRule(b, tag)[tag[i].key] == b.Forwarded(tag[i])
  {
    var front := tag[..|tag| - 1];
    if i < |front| {
      ByRuleKeys(b, front, i);
    } else {
      KeysFromTag(b, front, tag[i].key);
    }
  }

  /** The name of the member that a key is about: with or without the prefix it is the same one. */
  lemma PrefixDoesNotMatter(field: string)
    ensures SettingsKey(PREFIX + field) == field
    ensures !(PREFIX <= field) ==> SettingsKey(field) == field
  {
  }

  /** The block's own setting, if the key is about a member that is set, and the tag's value else. */
  function OwnValue(b: Block, p: Pair, field: string): Value {
    if field in b.members && field in b.settings then b.settings[field] else p.value
  }

  /** A sample rate times output chunk over input chunk, if the chunk sizes differ and it is in single
      precision; anything else as it is. */
  function Rescaled(b: Block, field: string, value: Value): Value {
    if b.resampling && b.inChunk != b.outChunk && b.inChunk != 0 && field == SAMPLE_RATE && value.Float?
    then Float((b.outChunk as real / b.inChunk as real) * value.x) else value
  }

  /** What is published for a key about this field, prefixed or asked for by name. */
  lemma PublishedValue(b: Block, tag: Tag, i: nat, field: string)
    requires DistinctKeys(tag) && i < |tag|
    requires tag[i].key == PREFIX + field || (tag[i].key == field && !(PREFIX <= field) && field in b.supplement)
    ensures tag[i].key in ByRule(b, tag)
    ensures ByRule(b, tag)[tag[i].key] == Rescaled(b, field, OwnValue(b, tag[i], field))
  {
    hide ByRule, Rescaled, OwnValue, Block.Forwarded;
    PrefixDoesNotMatter(field);
    ByRuleKeys(b, tag, i);
    ForwardedValue(b, tag[i], field);
  }

  lemma ForwardedValue(b: Block, p: Pair, field: string)
    requires SettingsKey(p.key) == field
    ensures b.Forwarded(p) == Rescaled(b, field, OwnValue(b, p, field))
  {
    hide SettingsKey;
  }

  /** Nothing else is published: no key that the tag does not have, and none that is neither prefixed nor
      asked for. */
  lemma {:induction false} OnlyForwardedKeys(b: Block, tag: Tag, key: string)
    ensures key in ByRule(b, tag) ==> PREFIX <= key || key in b.supplement
    ensures key in ByRule(b, tag) ==> exists i :: 0 <= i < |tag| && tag[i].key == key
  {
    KeysFromTag(b, tag, key);
    if tag != [] { OnlyForwardedKeys(b, tag[..|tag| - 1], key); }
  }

  lemma {:induction false} KeysFromTag(b: Block, tag: Tag, key: string)
    ensures key in ByRule(b, tag) ==> exists i :: 0 <= i < |tag| && tag[i].key == key
  {
    if tag != [] {
      var front := tag[..|tag| - 1];
      KeysFromTag(b, front, key);
      if key in ByRule(b, front) {
        var i :| 0 <= i < |front| && front[i].key == key;
        assert tag[i].key == key;
      }
    }
  }

  /** The rescaled rate is right: a chunk lasts as long after the block as before it. */
  lemma RescaledRateKeepsDuration(b: Block, key: string, x: real)
    requires b.Converts(key) && b.inChunk > 0 && b.outChunk > 0 && x > 0.0
    ensures var y := b.OutputValue(key, Float(x)).x;
            y > 0.0 && b.inChunk as real / x == b.outChunk as real / y
  {
    var m, n, y := b.inChunk as real, b.outChunk as real, b.OutputValue(key, Float(x)).x;
    assert y == (n / m) * x;
    QuotientsAgree(m, n, x, y);
  }

  lemma QuotientsAgree(m: real, n: real, x: real, y: real)
    requires m > 0.0 && n > 0.0 && x > 0.0 && y == (n / m) * x
    ensures y > 0.0 && m / x == n / y
  {
    var q := n / m;
    assert q > 0.0 && q * m == n;
    assert y > 0.0;
    var p := m / x;
    assert p * x == m;
    assert p * y == q * (p * x);
    assert n == p * y;
  }

  // --- the same tag on several ports --------------------------------------------------------------------

  const DEDUP_CAPACITY: nat := 8

  /** A tag with its index relative to the chunk. */
  datatype Indexed = Indexed(relIndex: int, tag: map<string, Value>)

  /** The pairs that are remembered: the first eight different ones. */
  function Seen(tags: seq<Indexed>): (r: seq<Indexed>)
    ensures |r| <= DEDUP_CAPACITY
  {
    if tags == [] then []
    else
      var before, t := Seen(tags[..|tags| - 1]), tags[|tags| - 1];
      if t in before || |before| == DEDUP_CAPACITY then before else before + [t]
  }

  function Handled(tags: seq<Indexed>): seq<Indexed> {
    if tags == [] then []
    else
      var front, t := tags[..|tags| - 1], tags[|tags| - 1];
      if t in Seen(front) then Handled(front) else Handled(front) + [t]
  }

  /** The loop over all ports' tags, with its fixed array of remembered pairs. */
  method HandleOnce(tags: seq<Indexed>) returns (handled: seq<Indexed>)
    ensures handled == Handled(tags)
  {
    handled := [];
    var seen: seq<Indexed>, nSeen: nat := [], 0;
    for i := 0 to |tags|
      invariant handled == Handled(tags[..i]) && seen == Seen(tags[..i])
      invariant if nSeen < DEDUP_CAPACITY then |seen| == nSeen else |seen| == DEDUP_CAPACITY
    {
      var t := tags[i];
      assert tags[..i + 1][..i] == tags[..i] && tags[..i + 1][i] == t;
      var nToCheck := if nSeen < DEDUP_CAPACITY then nSeen else DEDUP_CAPACITY;
      var duplicate := false;
      var j := 0;
      while j < nToCheck && !duplicate
        invariant 0 <= j <= nToCheck
        invariant duplicate <==> exists k :: 0 <= k < j && seen[k] == t
      {
        if seen[j] == t { duplicate := true; }
        j := j + 1;
      }
      if !duplicate {
        handled := handled + [t];
        if nSeen < DEDUP_CAPACITY { seen := seen + [t]; }
        nSeen := nSeen + 1;
      }
    }
    assert tags[..|tags|] == tags;
  }

  lemma {:induction false} SeenAreTags(tags: seq<Indexed>, t: Indexed)
    ensures t in Seen(tags) ==> t in tags
  {
    if tags != [] { SeenAreTags(tags[..|tags| - 1], t); }
  }

  /** How often a pair is handled: once if it is one of the first eight different pairs, and as often as
      it occurs otherwise. So none is lost. */
  lemma {:induction false} HandledHowOften(tags: seq<Indexed>, t: Indexed)
    ensures multiset(Handled(tags))[t] == if t in Seen(tags) then 1 else multiset(tags)[t]
  {
    hide Seen, Handled;
    NothingHandled();
    if tags == [] { return; }
    var front, last := tags[..|tags| - 1], tags[|tags| - 1];
    assert tags == front + [last];
    OneMoreHandled(front, last);
    HandledHowOften(front, t);
    SeenAreTags(front, t);
    SeenHoldsAll(front);
    CountOneMore(front, last, t);
    CountOneMore(Handled(front), last, t);
  }

  lemma NothingHandled()
    ensures Seen([]) == [] && Handled([]) == []
  {
  }

  lemma OneMoreHandled(tags: seq<Indexed>, t: Indexed)
    ensures Seen(tags + [t])
            == if t in Seen(tags) || |Seen(tags)| == DEDUP_CAPACITY then Seen(tags) else Seen(tags) + [t]
    ensures Handled(tags + [t]) == if t in Seen(tags) then Handled(tags) else Handled(tags) + [t]
  {
    assert (tags + [t])[..|tags|] == tags;
  }

  lemma CountOneMore<T>(s: seq<T>, last: T, t: T)
    ensures multiset(s + [last])[t] == multiset(s)[t] + if t == last then 1 else 0
    ensures multiset(s)[t] == 0 <==> t !in s
  {
  }

  /** Every pair is handled exactly once exactly when no pair beyond the first eight is repeated. */
  lemma HandledOnce(tags: seq<Indexed>)
    ensures (forall t :: t in tags ==> multiset(Handled(tags))[t] == 1)
       <==> (forall t :: t in tags && t !in Seen(tags) ==> multiset(tags)[t] == 1)
  {
    forall t ensures multiset(Handled(tags))[t] == if t in Seen(tags) then 1 else multiset(tags)[t] {
      HandledHowOften(tags, t);
    }
  }

  function Different(tags: seq<Indexed>): set<Indexed> {
    set t | t in tags
  }

  predicate NoTwoEqual(s: seq<Indexed>) {
    forall i, j :: 0 <= i < j < |s| ==> s[i] != s[j]
  }

  /** The pairs that are remembered are the first eight different ones. */
  lemma {:induction false} SeenAreFirstEight(tags: seq<Indexed>)
    ensures NoTwoEqual(Seen(tags)) && forall t :: t in Seen(tags) ==> t in tags
    ensures |Seen(tags)| == if |Different(tags)| < 8 then |Different(tags)| else 8
    ensures forall n :: 0 <= n <= |tags| ==> Seen(tags[..n]) <= Seen(tags)
  {
    hide Seen, Different, NoTwoEqual;
    NothingSeen();
    if tags == [] { return; }
    var front, last := tags[..|tags| - 1], tags[|tags| - 1];
    assert tags == front + [last];
    SeenAreFirstEight(front);
    SeenHoldsAll(front);
    OneMoreHandled(front, last);
    OneMoreDifferent(front, last);
    if last !in Seen(front) { OneMoreUnequal(Seen(front), last); }
    forall n | 0 <= n <= |tags| ensures Seen(tags[..n]) <= Seen(tags) {
      assert tags[..n] == if n == |tags| then tags else front[..n];
    }
  }

  lemma NothingSeen()
    ensures Seen([]) == [] && Different([]) == {} && NoTwoEqual([])
  {
  }

  lemma OneMoreUnequal(s: seq<Indexed>, t: Indexed)
    requires NoTwoEqual(s) && t !in s
    ensures NoTwoEqual(s + [t])
  {
  }

  lemma OneMoreDifferent(tags: seq<Indexed>, t: Indexed)
    ensures Different(tags + [t]) == Different(tags) + {t}
    ensures t in tags ==> |Different(tags + [t])| == |Different(tags)|
    ensures t !in tags ==> |Different(tags + [t])| == |Different(tags)| + 1
  {
    assert Different(tags + [t]) == Different(tags) + {t};
    if t in tags { assert Different(tags) + {t} == Different(tags); }
  }

  lemma {:induction false} SeenHoldsAll(tags: seq<Indexed>)
    ensures |Seen(tags)| < DEDUP_CAPACITY ==> forall t :: t in tags ==> t in Seen(tags)
  {
    if tags != [] { SeenHoldsAll(tags[..|tags| - 1]); }
  }
}
