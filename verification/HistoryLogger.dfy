/** The bounded log of the most recent records, published to and read by any number of threads that never
    wait: one try-lock, an overwriting ring, a drain cursor and a count of refused records. */
module HistoryLogger {
  import opened Options
  import opened Arithmetic

  const CAPACITY: nat := 20

  datatype Record = Record(message: string, droppedBefore: nat)

  const BLANK := Record("", 0)

  /** How many records have been overwritten once the record of this sequence number is stored. */
  function Overwritten(sequence: nat): nat {
    if sequence >= CAPACITY then sequence + 1 - CAPACITY else 0
  }

  function Stamped(record: Record, sequence: nat, contended: nat): (r: Record)
    ensures r.message == record.message && r.droppedBefore >= record.droppedBefore
    ensures r.droppedBefore >= Overwritten(sequence) + contended
    ensures r.droppedBefore == record.droppedBefore || r.droppedBefore == Overwritten(sequence) + contended
  {
    var lost := Overwritten(sequence) + contended;
    if lost > 0 then record.(droppedBefore := Max(record.droppedBefore, lost)) else record
  }

  /** Once a record is stored, as many as do not fit beside it have been overwritten. */
  lemma OverwrittenAreNotRetained(sequence: nat)
    ensures Overwritten(sequence) == RetainedBegin(sequence + 1)
    ensures Overwritten(sequence) + Min(sequence + 1, 20) == sequence + 1
  {
  }

  /** What a thread does next. */
  datatype Pc =
    | Idle
    | TryPublish(record: Record)
    | CountDrop
    | LoadCounters(record: Record)
    | WriteRecord(stamped: Record, sequence: nat)
    | Announce(stamped: Record, sequence: nat)
    | TryRead(consume: bool)
    | Measure(consume: bool)
    | Deliver(consume: bool, begin: nat, end: nat, out: seq<Record>)
    | MarkDrained(begin: nat, end: nat, out: seq<Record>)
    | TryClear
    | WipeRecords
    | ClearDrained
    | ClearDropped
    | ClearPublished
    | Release(result: Result)

  datatype Result = Accepted | Snapshot(out: seq<Record>) | Drained(begin: nat, out: seq<Record>) | Cleared

  /** The shared fields, the threads, and as history: which thread holds the lock, the records published
      since the last clear, the sequence numbers drained since then, and how many publishes have been
      accepted and refused since the counters were last cleared. */
  datatype System = System(records: seq<Record>, published: nat, drained: nat, contended: nat, busy: bool,
                           threads: seq<Pc>, holder: Option<nat>, log: seq<Record>, delivered: seq<nat>,
                           accepted: nat, refused: nat)

  datatype Call = Publish(record: Record) | Read(consume: bool) | Clear

  datatype Event = Start(thread: nat, call: Call) | Advance(thread: nat)

  function Initial(threads: nat): System {
    System(seq(CAPACITY, _ => BLANK), 0, 0, 0, false, seq(threads, _ => Idle), None, [], [], 0, 0)
  }

  function RetainedBegin(end: nat): nat {
    if end > CAPACITY then end - CAPACITY else 0
  }

  /** Thread t goes on at another place. */
  function At(s: System, t: nat, pc: Pc): System
    requires t < |s.threads|
  {
    s.(threads := s.threads[t := pc])
  }

  /** The exchange of the busy flag: the lock is taken if it was free. */
  function TryLock(s: System, t: nat, locked: Pc, failed: Pc): System
    requires t < |s.threads|
  {
    if s.busy then At(s, t, failed) else At(s.(busy := true, holder := Some(t)), t, locked)
  }

  function Started(s: System, t: nat, call: Call): System
    requires t < |s.threads|
  {
    if s.threads[t] != Idle then s
    else match call
         case Publish(record) => At(s, t, TryPublish(record))
         case Read(consume) => At(s, t, TryRead(consume))
         case Clear => At(s, t, TryClear)
  }

  /** The next atomic step of a thread. */
  function Advanced(s: System, t: nat): System
    requires t < |s.threads| && |s.records| == CAPACITY
  {
    match s.threads[t]
    case Idle => s
    case TryPublish(record) => TryLock(s, t, LoadCounters(record), CountDrop)
    case CountDrop => At(s.(contended := s.contended + 1, refused := s.refused + 1), t, Idle)
    case LoadCounters(record) => At(s, t, WriteRecord(Stamped(record, s.published, s.contended), s.published))
    case WriteRecord(stamped, sequence) =>
      At(s.(records := s.records[sequence % CAPACITY := stamped]), t, Announce(stamped, sequence))
    case Announce(stamped, sequence) =>
      At(s.(published := sequence + 1, log := s.log + [stamped]), t, Release(Accepted))
    case TryRead(consume) => TryLock(s, t, Measure(consume), Idle)
    case Measure(consume) => Measured(s, t, consume)
    case Deliver(consume, begin, end, out) => DeliveredOne(s, t, consume, begin, end, out)
    case MarkDrained(begin, end, out) => At(s.(drained := end), t, Release(Drained(begin, out)))
    case TryClear => TryLock(s, t, WipeRecords, Idle)
    case WipeRecords => At(s.(records := seq(CAPACITY, _ => BLANK)), t, ClearDrained)
    case ClearDrained => At(s.(drained := 0), t, ClearDropped)
    case ClearDropped => At(s.(contended := 0, refused := 0), t, ClearPublished)
    case ClearPublished => At(s.(published := 0, log := [], delivered := [], accepted := 0), t, Release(Cleared))
    case Release(result) =>
      At(s.(busy := false, holder := None, accepted := if result.Accepted? then s.accepted + 1 else s.accepted), t,
         Idle)
  }

  function Measured(s: System, t: nat, consume: bool): System
    requires t < |s.threads|
  {
    At(s, t, Deliver(consume, ReadBegin(s, consume), s.published, []))
  }

  /** Where a read starts: at the oldest retained record, for draining not before the cursor. */
  function ReadBegin(s: System, consume: bool): nat {
    if consume then Max(RetainedBegin(s.published), Min(s.drained, s.published)) else RetainedBegin(s.published)
  }

  /** The consumer gets the next record, or the loop is over. */
  function DeliveredOne(s: System, t: nat, consume: bool, begin: nat, end: nat, out: seq<Record>): System
    requires t < |s.threads| && |s.records| == CAPACITY
  {
    var n := if begin <= end then Min(end - begin, CAPACITY) else 0;
    if |out| < n then
      var sequence := begin + |out|;
      At(s.(delivered := if consume then s.delivered + [sequence] else s.delivered), t,
         Deliver(consume, begin, end, out + [s.records[sequence % CAPACITY]]))
    else if consume then At(s, t, MarkDrained(begin, end, out))
    else At(s, t, Release(Snapshot(out)))
  }

  function Next(s: System, e: Event): (s': System)
    requires |s.records| == CAPACITY
    ensures |s'.records| == CAPACITY
  {
    if e.thread >= |s.threads| then s
    else match e
         case Start(t, call) => Started(s, t, call)
         case Advance(t) => Advanced(s, t)
  }

  /** The state after any sequence of calls and steps. */
  function Run(threads: nat, events: seq<Event>): (s: System)
    ensures |s.records| == CAPACITY
  {
    if events == [] then Initial(threads) else Next(Run(threads, events[..|events| - 1]), events[|events| - 1])
  }

  // --- the lock ---------------------------------------------------------------------------------------

  predicate Holding(pc: Pc) {
    pc.LoadCounters? || pc.WriteRecord? || pc.Announce? || pc.Measure? || pc.Deliver? || pc.MarkDrained? || pc.Release?
    || pc.WipeRecords? || pc.ClearDrained? || pc.ClearDropped? || pc.ClearPublished?
  }

  /** At most one thread is between taking and releasing the lock, and only while the flag is set. */
  ghost predicate Exclusive(s: System) {
    && |s.records| == CAPACITY && s.refused == s.contended
    && (s.busy <==> s.holder.Some?)
    && (s.holder.Some? ==> s.holder.value < |s.threads|)
    && (forall t :: 0 <= t < |s.threads| ==> (Holding(s.threads[t]) <==> s.holder == Some(t)))
  }

  ghost function HolderPc(s: System): Pc {
    if s.holder.Some? && s.holder.value < |s.threads| then s.threads[s.holder.value] else Idle
  }

  // --- the data under the lock ------------------------------------------------------------------------

  predicate Clearing(pc: Pc) {
    pc.ClearDrained? || pc.ClearDropped? || pc.ClearPublished?
  }

  /** The ring holds the records from the oldest retained one on, each in its slot. */
  ghost predicate Slots(s: System, pc: Pc) {
    && |s.records| == CAPACITY && |s.log| == s.published
    && forall q :: (if pc.Announce? then RetainedBegin(s.published + 1)
                    else RetainedBegin(s.published)) <= q < s.published
         ==> s.records[q % CAPACITY] == s.log[q]
  }

  /** How far the drains have got, counting one that is under way. */
  ghost function Cursor(s: System, pc: Pc): nat {
    match pc
    case Deliver(consume, begin, _, out) => if consume then begin + |out| else s.drained
    case MarkDrained(_, end, _) => end
    case _ => s.drained
  }

  ghost predicate Increasing(xs: seq<nat>) {
    forall i, j :: 0 <= i < j < |xs| ==> xs[i] < xs[j]
  }

  /** Nothing is delivered twice or out of order, and no retained record before the cursor was missed. */
  ghost predicate Drains(s: System, pc: Pc) {
    && s.drained <= s.published && Cursor(s, pc) <= s.published
    && Increasing(s.delivered) && (forall q :: q in s.delivered ==> q < Cursor(s, pc))
    && (forall q :: RetainedBegin(s.published) <= q < Cursor(s, pc) ==> q in s.delivered)
  }

  ghost predicate Counted(s: System, pc: Pc) {
    && s.accepted + (if pc == Release(Accepted) then 1 else 0) == s.published
    && (forall q :: 0 <= q < |s.log| ==> s.log[q].droppedBefore >= Overwritten(q))
  }

  /** What the thread in the lock has in its local variables. */
  ghost predicate Local(s: System, pc: Pc)
    requires |s.records| == CAPACITY && |s.log| == s.published
  {
    match pc
    case WriteRecord(stamped, sequence) => sequence == s.published && stamped.droppedBefore >= Overwritten(sequence)
    case Announce(stamped, sequence) =>
      sequence == s.published && stamped.droppedBefore >= Overwritten(sequence)
        && s.records[sequence % CAPACITY] == stamped
    case Deliver(consume, begin, end, out) => end == s.published && ReadSoFar(s, consume, begin, out)
    case MarkDrained(begin, end, out) => end == s.published && ReadSoFar(s, true, begin, out) && begin + |out| == end
    case Release(Snapshot(out)) => out == s.log[RetainedBegin(s.published)..]
    case Release(Drained(begin, out)) => s.drained == s.published && begin <= s.published && out == s.log[begin..]
    case _ => true
  }

  /** The records read so far are those of the log. */
  ghost predicate ReadSoFar(s: System, consume: bool, begin: nat, out: seq<Record>)
    requires |s.log| == s.published
  {
    begin == ReadBegin(s, consume) && begin + |out| <= s.published && out == s.log[begin..begin + |out|]
  }

  ghost predicate Data(s: System, pc: Pc) {
    && (pc.ClearDropped? || pc.ClearPublished? ==> s.drained == 0)
    && (!Clearing(pc) ==> Slots(s, pc) && Drains(s, pc) && Counted(s, pc) && Local(s, pc))
  }

  ghost predicate Sound(s: System) {
    Exclusive(s) && Data(s, HolderPc(s))
  }

  // --- every step keeps the state sound ---------------------------------------------------------------

  lemma InitialSound(threads: nat)
    ensures Sound(Initial(threads))
  {
  }

  /** The data do not depend on where the threads are, nor on the lock and the refusal counters. */
  lemma SameData(s: System, s': System, pc: Pc)
    requires Data(s, pc)
    requires s' == s.(threads := s'.threads, busy := s'.busy, holder := s'.holder, contended := s'.contended,
                      refused := s'.refused)
    ensures Data(s', pc)
  {
  }

  /** A step of a thread outside the lock. */
  lemma OutsideStep(s: System, t: nat, pc: Pc)
    requires Sound(s) && t < |s.threads| && !Holding(s.threads[t]) && !Holding(pc)
    ensures Sound(At(s, t, pc))
  {
    SameData(s, At(s, t, pc), HolderPc(s));
  }

  lemma TryLockStep(s: System, t: nat, locked: Pc, failed: Pc)
    requires Sound(s) && t < |s.threads| && !Holding(s.threads[t]) && !Holding(failed)
    requires locked.LoadCounters? || locked.Measure? || locked.WipeRecords?
    ensures Sound(TryLock(s, t, locked, failed))
  {
    if s.busy {
      OutsideStep(s, t, failed);
    } else {
      SameData(s, TryLock(s, t, locked, failed), Idle);
    }
  }

  lemma CountDropStep(s: System, t: nat)
    requires Sound(s) && t < |s.threads| && s.threads[t].CountDrop?
    ensures Sound(Advanced(s, t))
  {
    hide Data;
    OutsideStep(s, t, Idle);
    var s1 := At(s, t, Idle);
    var s' := s1.(contended := s.contended + 1, refused := s.refused + 1);
    SameData(s1, s', HolderPc(s1));
    assert Advanced(s, t) == s' && HolderPc(s') == HolderPc(s1);
  }

  /** A step of the thread in the lock leaves the lock as it is, or frees it. */
  lemma InsideStep(s: System, t: nat)
    requires Exclusive(s) && t < |s.threads| && s.holder == Some(t)
    requires (s.threads[t].Release? || Holding(Advanced(s, t).threads[t]))
    ensures Exclusive(Advanced(s, t)) && HolderPc(Advanced(s, t))
            == if s.threads[t].Release? then Idle else Advanced(s, t).threads[t]
  {
  }

  lemma PublishData(s: System, t: nat)
    requires t < |s.threads| && |s.records| == CAPACITY && Data(s, s.threads[t])
    requires s.threads[t].LoadCounters? || s.threads[t].WriteRecord? || s.threads[t].Announce?
    ensures Data(Advanced(s, t), Advanced(s, t).threads[t])
  {
    var s' := Advanced(s, t);
    match s.threads[t]
    case LoadCounters(record) =>
    case WriteRecord(stamped, sequence) => SlotWritten(s, t);
    case Announce(stamped, sequence) =>
      forall q | RetainedBegin(s'.published) <= q < s'.published ensures s'.records[q % CAPACITY] == s'.log[q] {}
    case _ =>
  }

  /** The slot a record is written to is that of the one record no longer retained after it. */
  lemma SlotWritten(s: System, t: nat)
    requires t < |s.threads| && |s.records| == CAPACITY && s.threads[t].WriteRecord? && Data(s, s.threads[t])
    ensures Data(Advanced(s, t), Advanced(s, t).threads[t])
  {
    var s', sequence := Advanced(s, t), s.threads[t].sequence;
    forall q | RetainedBegin(s.published + 1) <= q < s.published ensures s'.records[q % CAPACITY] == s'.log[q] {
      OtherSlot(q, sequence);
    }
  }

  lemma OtherSlot(q: nat, sequence: nat)
    requires q < sequence < q + CAPACITY
    ensures q % CAPACITY != sequence % CAPACITY
  {
  }

  lemma MeasureData(s: System, t: nat)
    requires t < |s.threads| && |s.records| == CAPACITY && s.threads[t].Measure? && Data(s, s.threads[t])
    ensures Data(Advanced(s, t), Advanced(s, t).threads[t])
  {
    var begin := ReadBegin(s, s.threads[t].consume);
    assert s.log[begin..begin] == [];
  }

  lemma DeliverData(s: System, t: nat)
    requires t < |s.threads| && |s.records| == CAPACITY && s.threads[t].Deliver? && Data(s, s.threads[t])
    ensures Data(Advanced(s, t), Advanced(s, t).threads[t])
  {
    var pc, s' := s.threads[t], Advanced(s, t);
    KeepSlots(s, pc, s', s'.threads[t]);
    hide Slots, Counted;
    var next := pc.begin + |pc.out|;
    if next < pc.end {
      DeliverOne(s, t);
    } else {
      assert s.log[pc.begin..next] == s.log[pc.begin..];
    }
  }

  lemma KeepSlots(s: System, pc: Pc, s': System, pc': Pc)
    requires Slots(s, pc) && Counted(s, pc) && pc.Deliver?
    requires (pc'.Deliver? || pc'.MarkDrained? || (pc'.Release? && pc'.result.Snapshot?))
    requires s'.records == s.records && s'.log == s.log && s'.published == s.published && s'.accepted == s.accepted
    ensures Slots(s', pc') && Counted(s', pc')
  {
  }

  lemma DeliverOne(s: System, t: nat)
    requires t < |s.threads| && |s.records| == CAPACITY && s.threads[t].Deliver? && Data(s, s.threads[t])
    requires s.threads[t].begin + |s.threads[t].out| < s.threads[t].end
    ensures Drains(Advanced(s, t), Advanced(s, t).threads[t]) && |s.log| == s.published
    ensures Local(Advanced(s, t), Advanced(s, t).threads[t])
    ensures Advanced(s, t).threads[t].Deliver?
  {
    hide Slots, Counted, Increasing, ReadSoFar, Drains;
    var pc := s.threads[t];
    RingHolds(s, pc);
    RingBounded(s, pc);
    DeliverDrains(s, t);
    DeliverStep(s, t, s.log[pc.begin + |pc.out|]);
    ReadOneMore(s, Advanced(s, t), pc.consume, pc.begin, pc.out);
  }

  /** The slot that is read next holds the record of its sequence number. */
  lemma RingHolds(s: System, pc: Pc)
    requires |s.records| == CAPACITY && pc.Deliver? && Data(s, pc) && pc.begin + |pc.out| < pc.end
    ensures pc.begin + |pc.out| < |s.log| == s.published
    ensures s.records[(pc.begin + |pc.out|) % CAPACITY] == s.log[pc.begin + |pc.out|]
  {
    hide Counted, Drains, Increasing;
  }

  lemma DeliverStep(s: System, t: nat, next: Record)
    requires t < |s.threads| && |s.records| == CAPACITY && s.threads[t].Deliver?
    requires var pc := s.threads[t];
             && pc.begin + |pc.out| < pc.end && |pc.out| < CAPACITY
             && s.records[(pc.begin + |pc.out|) % CAPACITY] == next
    ensures var pc, s' := s.threads[t], Advanced(s, t);
            && s' == s.(delivered := s'.delivered, threads := s'.threads)
            && s'.threads[t] == Deliver(pc.consume, pc.begin, pc.end, pc.out + [next])
  {
  }

  lemma RingBounded(s: System, pc: Pc)
    requires |s.log| == s.published && pc.Deliver? && ReadSoFar(s, pc.consume, pc.begin, pc.out)
    ensures pc.begin <= s.published <= pc.begin + CAPACITY
  {
  }

  lemma ReadOneMore(s: System, s': System, consume: bool, begin: nat, out: seq<Record>)
    requires |s.log| == s.published && ReadSoFar(s, consume, begin, out) && begin + |out| < s.published
    requires s'.log == s.log && s'.published == s.published && s'.drained == s.drained
    ensures ReadSoFar(s', consume, begin, out + [s.log[begin + |out|]])
  {
    NextOfSlice(s.log, begin, begin + |out|);
  }

  lemma DeliverDrains(s: System, t: nat)
    requires t < |s.threads| && |s.records| == CAPACITY && s.threads[t].Deliver? && Drains(s, s.threads[t])
    requires s.threads[t].begin + |s.threads[t].out| < s.threads[t].end == s.published <= s.threads[t].begin + CAPACITY
    ensures Drains(Advanced(s, t), Advanced(s, t).threads[t])
  {
    var pc := s.threads[t];
    hide Increasing, RetainedBegin;
    if pc.consume { CursorMoves(s.delivered, pc.begin + |pc.out|, RetainedBegin(s.published)); }
  }

  lemma NextOfSlice<T>(s: seq<T>, i: nat, j: nat)
    requires i <= j < |s|
    ensures s[i..j] + [s[j]] == s[i..j + 1]
  {
  }

  lemma CursorMoves(delivered: seq<nat>, next: nat, oldest: nat)
    requires Increasing(delivered) && (forall q :: q in delivered ==> q < next)
    requires (forall q :: oldest <= q < next ==> q in delivered)
    ensures Increasing(delivered + [next]) && (forall q :: q in delivered + [next] ==> q < next + 1)
    ensures forall q :: oldest <= q < next + 1 ==> q in delivered + [next]
  {
    var more := delivered + [next];
    forall i, j | 0 <= i < j < |more| ensures more[i] < more[j] {
      if j == |delivered| { assert delivered[i] in delivered; }
    }
    assert more[|delivered|] == next;
    assert forall q :: q in delivered ==> q in more;
  }

  lemma MarkData(s: System, t: nat)
    requires t < |s.threads| && |s.records| == CAPACITY && s.threads[t].MarkDrained? && Data(s, s.threads[t])
    ensures Data(Advanced(s, t), Advanced(s, t).threads[t])
  {
    var pc := s.threads[t];
    assert s.log[pc.begin..pc.end] == s.log[pc.begin..];
  }

  lemma ClearData(s: System, t: nat)
    requires t < |s.threads| && |s.records| == CAPACITY && (s.threads[t].WipeRecords? || Clearing(s.threads[t]))
    requires Data(s, s.threads[t])
    ensures Data(Advanced(s, t), Advanced(s, t).threads[t])
  {
  }

  lemma ReleaseData(s: System, t: nat)
    requires t < |s.threads| && |s.records| == CAPACITY && s.threads[t].Release? && Data(s, s.threads[t])
    ensures Data(Advanced(s, t), Idle)
  {
  }

  lemma StaysInside(s: System, t: nat)
    requires t < |s.threads| && |s.records| == CAPACITY && Holding(s.threads[t])
    ensures |Advanced(s, t).threads| == |s.threads|
    ensures if s.threads[t].Release? then Advanced(s, t).threads[t] == Idle else Holding(Advanced(s, t).threads[t])
  {
  }

  lemma HolderStep(s: System, t: nat)
    requires Sound(s) && t < |s.threads| && Holding(s.threads[t])
    ensures Sound(Advanced(s, t))
  {
    StaysInside(s, t);
    InsideStep(s, t);
    hide Data, Advanced, Exclusive;
    assert HolderPc(s) == s.threads[t] by { HolderIs(s, t); }
    match s.threads[t]
    case LoadCounters(_) => PublishData(s, t);
    case WriteRecord(_, _) => PublishData(s, t);
    case Announce(_, _) => PublishData(s, t);
    case Measure(_) => MeasureData(s, t);
    case Deliver(_, _, _, _) => DeliverData(s, t);
    case MarkDrained(_, _, _) => MarkData(s, t);
    case Release(_) => ReleaseData(s, t);
    case _ => ClearData(s, t);
  }

  lemma HolderIs(s: System, t: nat)
    requires Exclusive(s) && t < |s.threads| && Holding(s.threads[t])
    ensures s.holder == Some(t) && HolderPc(s) == s.threads[t]
  {
  }

  lemma NextSound(s: System, e: Event)
    requires Sound(s)
    ensures Sound(Next(s, e))
  {
    if e.thread < |s.threads| {
      match e
      case Start(t, call) =>
        if s.threads[t] == Idle {
          OutsideStep(s, t, match call
                            case Publish(r) => TryPublish(r)
                            case Read(c) => TryRead(c)
                            case Clear => TryClear);
        }
      case Advance(t) => AdvanceSound(s, t);
    }
  }

  lemma AdvanceSound(s: System, t: nat)
    requires Sound(s) && t < |s.threads|
    ensures Sound(Advanced(s, t))
  {
    hide Sound;
    match s.threads[t]
    case Idle =>
    case TryPublish(record) => TryLockStep(s, t, LoadCounters(record), CountDrop);
    case CountDrop => CountDropStep(s, t);
    case TryRead(consume) => TryLockStep(s, t, Measure(consume), Idle);
    case TryClear => TryLockStep(s, t, WipeRecords, Idle);
    case _ => HolderStep(s, t);
  }

  lemma {:induction false} RunSound(threads: nat, events: seq<Event>)
    ensures Sound(Run(threads, events))
  {
    hide Sound, Next;
    if events == [] {
      InitialSound(threads);
    } else {
      RunSound(threads, events[..|events| - 1]);
      NextSound(Run(threads, events[..|events| - 1]), events[|events| - 1]);
    }
  }

  // --- what callers see ---------------------------------------------------------------------------------

  /** A snapshot that gets the lock has exactly the most recent records, in order. */
  lemma SnapshotIsLatest(s: System, threads: nat, events: seq<Event>, t: nat, out: seq<Record>)
    requires s == Run(threads, events) && t < |s.threads| && s.threads[t] == Release(Snapshot(out))
    ensures |s.log| == s.published && |out| == Min(CAPACITY, s.published) && out == s.log[|s.log| - |out|..]
  {
    RunSound(threads, events);
    assert HolderPc(s) == s.threads[t];
  }

  /** A drain that gets the lock has delivered the log from some point to its end, and nothing but that
      can be drained again. */
  lemma DrainReachesEnd(s: System, threads: nat, events: seq<Event>, t: nat, begin: nat, out: seq<Record>)
    requires s == Run(threads, events) && t < |s.threads| && s.threads[t] == Release(Drained(begin, out))
    ensures |s.log| == s.published == s.drained && begin <= |s.log| && out == s.log[begin..]
  {
    RunSound(threads, events);
    assert HolderPc(s) == s.threads[t];
  }

  /** Drained sequence numbers only grow, so no record is delivered twice. */
  lemma DrainedInOrder(s: System, threads: nat, events: seq<Event>)
    requires s == Run(threads, events) && !Clearing(HolderPc(s))
    ensures Increasing(s.delivered) && forall q :: q in s.delivered ==> q < s.published
  {
    RunSound(threads, events);
  }

  /** The sequence numbers before n that were not drained. */
  function Missed(delivered: seq<nat>, n: nat): nat {
    if n == 0 then 0 else Missed(delivered, n - 1) + (if n - 1 in delivered then 0 else 1)
  }

  lemma {:induction false} DeliveredBefore(delivered: seq<nat>, n: nat)
    requires Increasing(delivered) && forall q :: q in delivered ==> q < n
    ensures |delivered| + Missed(delivered, n) == n
  {
    if n > 0 {
      if n - 1 in delivered {
        var last := |delivered| - 1;
        LastIsGreatest(delivered, n - 1);
        var front := delivered[..last];
        assert delivered == front + [n - 1];
        DeliveredBefore(front, n - 1);
        MissedSame(front, delivered, n - 1);
      } else {
        DeliveredBefore(delivered, n - 1);
      }
    } else {
      HasElement(delivered);
    }
  }

  lemma HasElement(s: seq<nat>)
    ensures s == [] || exists q :: q in s
  {
    if s != [] { assert s[0] in s; }
  }

  lemma LastIsGreatest(delivered: seq<nat>, q: nat)
    requires Increasing(delivered) && q in delivered && forall p :: p in delivered ==> p <= q
    ensures delivered[|delivered| - 1] == q
    ensures forall i :: 0 <= i < |delivered| - 1 ==> delivered[i] < q
  {
    var i :| 0 <= i < |delivered| && delivered[i] == q;
    assert delivered[|delivered| - 1] in delivered;
  }

  lemma {:induction false} MissedSame(a: seq<nat>, b: seq<nat>, n: nat)
    requires forall q :: 0 <= q < n ==> (q in a <==> q in b)
    ensures Missed(a, n) == Missed(b, n)
  {
    if n > 0 { MissedSame(a, b, n - 1); }
  }

  lemma {:induction false} MissedNone(delivered: seq<nat>, low: nat, high: nat)
    requires low <= high && forall q :: low <= q < high ==> q in delivered
    ensures Missed(delivered, high) == Missed(delivered, low)
  {
    if low < high { MissedNone(delivered, low, high - 1); }
  }

  lemma {:induction false} MissedAll(delivered: seq<nat>, low: nat, high: nat)
    requires low <= high && forall q :: low <= q < high ==> q !in delivered
    ensures Missed(delivered, high) == Missed(delivered, low) + (high - low)
  {
    if low < high { MissedAll(delivered, low, high - 1); }
  }

  /** At any time but in the middle of a clear, every published record was drained, or overwritten before it
      was, or is still ahead of the drains; and every publish was either published or counted as refused,
      where the one that is about to return counts already. */
  lemma NothingUnaccountedFor(s: System, threads: nat, events: seq<Event>)
    requires s == Run(threads, events) && !Clearing(HolderPc(s))
    ensures var oldest, cursor := RetainedBegin(s.published), Cursor(s, HolderPc(s));
            && cursor <= s.published
            && |s.delivered| + Missed(s.delivered, oldest) + (s.published - Max(cursor, oldest)) == s.published
    ensures s.accepted + s.refused + (if HolderPc(s) == Release(Accepted) then 1 else 0) == s.published + s.contended
  {
    RunSound(threads, events);
    var oldest := RetainedBegin(s.published);
    var cursor := Max(Cursor(s, HolderPc(s)), oldest);
    DeliveredBefore(s.delivered, s.published);
    MissedNone(s.delivered, oldest, cursor);
    MissedAll(s.delivered, cursor, s.published);
  }

  /** A stored record's loss count covers at least the records overwritten by then. */
  lemma LossCountCoversOverwritten(s: System, threads: nat, events: seq<Event>, q: nat)
    requires s == Run(threads, events) && !Clearing(HolderPc(s)) && q < |s.log|
    ensures s.log[q].droppedBefore >= Overwritten(q)
  {
    RunSound(threads, events);
  }

  /** The stored loss count claims no more than the publisher had counted itself or readers really lost
      exactly when none of the overwritten records had been drained first, or the publisher's own count
      was already as large. */
  lemma LossCountIsLowerBound(record: Record, sequence: nat, contended: nat, delivered: seq<nat>)
    ensures var lost := Missed(delivered, Overwritten(sequence)) + contended;
            (Stamped(record, sequence, contended).droppedBefore <= Max(record.droppedBefore, lost)
             <==> (record.droppedBefore >= Overwritten(sequence) + contended
                   || forall q :: q in delivered ==> q >= Overwritten(sequence)))
  {
    MissedAtMost(delivered, Overwritten(sequence));
  }

  lemma {:induction false} MissedAtMost(delivered: seq<nat>, n: nat)
    ensures Missed(delivered, n) <= n
    ensures Missed(delivered, n) == n <==> forall q :: q in delivered ==> q >= n
  {
    if n > 0 { MissedAtMost(delivered, n - 1); }
  }

  // --- a run that loses nothing -------------------------------------------------------------------------

  /** One thread, at rest, after n records that were all drained. */
  ghost predicate AtRest(s: System, n: nat) {
    && |s.records| == CAPACITY && s.threads == [Idle] && !s.busy && s.published == s.drained == n == |s.delivered|
       && s.contended == 0
    && (forall i :: 0 <= i < n ==> s.delivered[i] == i)
  }

  /** One thread takes n steps while the others rest. */
  function Steps(s: System, t: nat, n: nat): (r: System)
    requires |s.records| == CAPACITY
    ensures |r.records| == CAPACITY
  {
    if n == 0 then s else Next(Steps(s, t, n - 1), Advance(t))
  }

  lemma OneMoreStep(s: System, t: nat, n: nat)
    requires |s.records| == CAPACITY
    ensures Steps(s, t, 0) == s && Steps(s, t, n + 1) == Next(Steps(s, t, n), Advance(t))
  {
    hide Next;
  }

  lemma FiveSteps(t: nat, s0: System, s1: System, s2: System, s3: System, s4: System, s5: System)
    requires |s0.records| == CAPACITY
    requires s1 == Next(s0, Advance(t)) && s2 == Next(s1, Advance(t)) && s3 == Next(s2, Advance(t))
    requires s4 == Next(s3, Advance(t)) && s5 == Next(s4, Advance(t))
    ensures Steps(s0, t, 5) == s5
  {
    hide Next, Steps;
    OneMoreStep(s0, t, 0);
    OneMoreStep(s0, t, 1);
    OneMoreStep(s0, t, 2);
    OneMoreStep(s0, t, 3);
    OneMoreStep(s0, t, 4);
  }

  /** What a publish leaves that finds the lock free. */
  function Published(s: System, record: Record): System
    requires |s.records| == CAPACITY
  {
    var stamped := Stamped(record, s.published, s.contended);
    s.(records := s.records[s.published % CAPACITY := stamped], published := s.published + 1,
       log := s.log + [stamped], accepted := s.accepted + 1, holder := None)
  }

  /** A publish that finds the lock free and that nobody disturbs takes five steps: it appends its record,
      stamped, to the log, and frees the lock. */
  lemma PublishAlone(s: System, t: nat, record: Record)
    requires |s.records| == CAPACITY && t < |s.threads| && s.threads[t] == Idle && !s.busy
    ensures Steps(Next(s, Start(t, Publish(record))), t, 5) == Published(s, record)
  {
    hide Steps, Stamped;
    var stamped, locked := Stamped(record, s.published, s.contended), s.(busy := true, holder := Some(t));
    var stored := locked.(records := s.records[s.published % CAPACITY := stamped]);
    var announced := stored.(published := s.published + 1, log := s.log + [stamped]);
    var s0 := Next(s, Start(t, Publish(record)));
    assert s0 == At(s, t, TryPublish(record));
    var s1 := Next(s0, Advance(t));
    AtTwice(locked, t, TryPublish(record), LoadCounters(record));
    assert s1 == At(locked, t, LoadCounters(record));
    var s2 := Next(s1, Advance(t));
    AtTwice(locked, t, LoadCounters(record), WriteRecord(stamped, s.published));
    assert s2 == At(locked, t, WriteRecord(stamped, s.published));
    var s3 := Next(s2, Advance(t));
    AtTwice(stored, t, WriteRecord(stamped, s.published), Announce(stamped, s.published));
    assert s3 == At(stored, t, Announce(stamped, s.published));
    var s4 := Next(s3, Advance(t));
    AtTwice(announced, t, Announce(stamped, s.published), Release(Accepted));
    assert s4 == At(announced, t, Release(Accepted));
    var s5 := Next(s4, Advance(t));
    AtTwice(s, t, Release(Accepted), Idle);
    assert s5.threads == s.threads;
    FiveSteps(t, s0, s1, s2, s3, s4, s5);
  }

  lemma AtTwice(s: System, t: nat, pc: Pc, pc': Pc)
    requires t < |s.threads|
    ensures At(At(s, t, pc), t, pc') == At(s, t, pc') && At(s, t, s.threads[t]) == s
  {
    assert s.threads[t := pc][t := pc'] == s.threads[t := pc'];
    assert s.threads[t := s.threads[t]] == s.threads;
  }

  /** What a clear leaves that finds the lock free. */
  function Emptied(s: System): System {
    s.(records := seq(CAPACITY, _ => BLANK), published := 0, drained := 0, contended := 0, holder := None,
       log := [], delivered := [], accepted := 0, refused := 0)
  }

  /** A clear that finds the lock free and that nobody disturbs takes six steps: it blanks every record, sets
      every counter to 0 and frees the lock. */
  lemma ClearAlone(s: System, t: nat)
    requires |s.records| == CAPACITY && t < |s.threads| && s.threads[t] == Idle && !s.busy
    ensures Steps(Next(s, Start(t, Clear)), t, 6) == Emptied(s)
  {
    hide Steps;
    var locked := s.(busy := true, holder := Some(t));
    var wiped := locked.(records := seq(CAPACITY, _ => BLANK));
    var rewound := wiped.(drained := 0);
    var uncounted := rewound.(contended := 0, refused := 0);
    var done := uncounted.(published := 0, log := [], delivered := [], accepted := 0);
    var s0 := Next(s, Start(t, Clear));
    assert s0 == At(s, t, TryClear);
    var s1 := Next(s0, Advance(t));
    AtTwice(locked, t, TryClear, WipeRecords);
    assert s1 == At(locked, t, WipeRecords);
    var s2 := Next(s1, Advance(t));
    AtTwice(wiped, t, WipeRecords, ClearDrained);
    assert s2 == At(wiped, t, ClearDrained);
    var s3 := Next(s2, Advance(t));
    AtTwice(rewound, t, ClearDrained, ClearDropped);
    assert s3 == At(rewound, t, ClearDropped);
    var s4 := Next(s3, Advance(t));
    AtTwice(uncounted, t, ClearDropped, ClearPublished);
    assert s4 == At(uncounted, t, ClearPublished);
    var s5 := Next(s4, Advance(t));
    AtTwice(done, t, ClearPublished, Release(Cleared));
    assert s5 == At(done, t, Release(Cleared));
    var s6 := Next(s5, Advance(t));
    AtTwice(s, t, Release(Cleared), Idle);
    assert s6.threads == s.threads;
    FiveSteps(t, s0, s1, s2, s3, s4, s5);
    OneMoreStep(s0, t, 5);
  }

  /** How many records a read hands out. */
  function ReadCount(s: System, consume: bool): nat {
    var begin := ReadBegin(s, consume);
    if begin <= s.published then Min(s.published - begin, CAPACITY) else 0
  }

  /** The first n records from a sequence number on, as the ring holds them. */
  function InRing(records: seq<Record>, begin: nat, n: nat): seq<Record>
    requires |records| == CAPACITY
  {
    seq(n, k requires 0 <= k < n => records[(begin + k) % CAPACITY])
  }

  function Numbers(begin: nat, n: nat): seq<nat> {
    seq(n, k requires 0 <= k < n => begin + k)
  }

  /** The state of a read with k records handed out. */
  function Reading(s: System, t: nat, consume: bool, k: nat): System
    requires |s.records| == CAPACITY && t < |s.threads|
  {
    var begin := ReadBegin(s, consume);
    At(s.(busy := true, holder := Some(t),
          delivered := if consume then s.delivered + Numbers(begin, k) else s.delivered),
       t, Deliver(consume, begin, s.published, InRing(s.records, begin, k)))
  }

  lemma StepsAdd(s: System, t: nat, m: nat, n: nat)
    requires |s.records| == CAPACITY
    ensures Steps(s, t, m + n) == Steps(Steps(s, t, m), t, n)
  {
    hide Next;
    if n > 0 {
      StepsAdd(s, t, m, n - 1);
      assert m + n - 1 == m + (n - 1);
    }
  }

  lemma {:induction false} DeliverSteps(s: System, t: nat, consume: bool, k: nat)
    requires |s.records| == CAPACITY && t < |s.threads| && k <= ReadCount(s, consume)
    ensures Steps(Reading(s, t, consume, 0), t, k) == Reading(s, t, consume, k)
  {
    hide Steps, Next, Reading, ReadCount;
    ReadingShaped(s, t, consume, 0);
    OneMoreStep(Reading(s, t, consume, 0), t, 0);
    if k > 0 {
      DeliverSteps(s, t, consume, k - 1);
      OneMoreStep(Reading(s, t, consume, 0), t, k - 1);
      DeliverNext(s, t, consume, k - 1);
    }
  }

  lemma ReadingShaped(s: System, t: nat, consume: bool, k: nat)
    requires |s.records| == CAPACITY && t < |s.threads|
    ensures |Reading(s, t, consume, k).records| == CAPACITY
  {
  }

  lemma DeliverNext(s: System, t: nat, consume: bool, k: nat)
    requires |s.records| == CAPACITY && t < |s.threads| && k < ReadCount(s, consume)
    ensures Next(Reading(s, t, consume, k), Advance(t)) == Reading(s, t, consume, k + 1)
  {
    var begin := ReadBegin(s, consume);
    hide ReadBegin;
    assert InRing(s.records, begin, k + 1) == InRing(s.records, begin, k) + [s.records[(begin + k) % CAPACITY]];
    assert s.delivered + Numbers(begin, k) + [begin + k] == s.delivered + Numbers(begin, k + 1);
    var next := if consume then s.delivered + Numbers(begin, k + 1) else s.delivered;
    AtTwice(s.(busy := true, holder := Some(t), delivered := next), t,
            Deliver(consume, begin, s.published, InRing(s.records, begin, k)),
            Deliver(consume, begin, s.published, InRing(s.records, begin, k + 1)));
  }

  lemma ReadStarts(s: System, t: nat, consume: bool)
    requires |s.records| == CAPACITY && t < |s.threads| && s.threads[t] == Idle && !s.busy
    ensures Steps(Next(s, Start(t, Read(consume))), t, 2) == Reading(s, t, consume, 0)
  {
    hide Steps, ReadBegin;
    var locked := s.(busy := true, holder := Some(t));
    var s0 := Next(s, Start(t, Read(consume)));
    var s1 := Next(s0, Advance(t));
    var s2 := Next(s1, Advance(t));
    AtTwice(locked, t, TryRead(consume), Measure(consume));
    var begin := ReadBegin(s, consume);
    AtTwice(locked, t, Measure(consume), Deliver(consume, begin, s.published, []));
    BeginLocked(s, t, consume);
    assert InRing(s.records, begin, 0) == [] && Numbers(begin, 0) == [] && s.delivered + [] == s.delivered;
    OneMoreStep(s0, t, 0);
    OneMoreStep(s0, t, 1);
  }

  lemma BeginLocked(s: System, t: nat, consume: bool)
    requires t < |s.threads|
    ensures ReadBegin(At(s.(busy := true, holder := Some(t)), t, Measure(consume)), consume) == ReadBegin(s, consume)
  {
  }

  /** A snapshot that finds the lock free and that nobody disturbs hands out the retained records and leaves
      everything as it was. */
  lemma SnapshotAlone(s: System, t: nat)
    requires |s.records| == CAPACITY && t < |s.threads| && s.threads[t] == Idle && !s.busy
    ensures var s0, n := Next(s, Start(t, Read(false))), ReadCount(s, false);
            var out := InRing(s.records, ReadBegin(s, false), n);
            && Steps(s0, t, n + 3) == At(s.(busy := true, holder := Some(t)), t, Release(Snapshot(out)))
            && Steps(s0, t, n + 4) == s.(holder := None)
  {
    hide Steps, ReadBegin;
    var s0, n, begin := Next(s, Start(t, Read(false))), ReadCount(s, false), ReadBegin(s, false);
    var out, locked := InRing(s.records, begin, n), s.(busy := true, holder := Some(t));
    ReadStarts(s, t, false);
    DeliverSteps(s, t, false, n);
    StepsAdd(s0, t, 2, n);
    OneMoreStep(s0, t, n + 2);
    OneMoreStep(s0, t, n + 3);
    AtTwice(locked, t, Deliver(false, begin, s.published, out), Release(Snapshot(out)));
    AtTwice(s, t, Release(Snapshot(out)), Idle);
    assert Steps(s0, t, n + 3) == At(locked, t, Release(Snapshot(out)));
    assert Steps(s0, t, n + 4).threads == s.threads;
  }

  /** A drain that finds the lock free and that nobody disturbs hands out the retained records that no drain
      has handed out, and moves the cursor to the end. */
  lemma DrainAlone(s: System, t: nat)
    requires |s.records| == CAPACITY && t < |s.threads| && s.threads[t] == Idle && !s.busy
    ensures var s0, n, begin := Next(s, Start(t, Read(true))), ReadCount(s, true), ReadBegin(s, true);
            var out, after := InRing(s.records, begin, n),
                              s.(delivered := s.delivered + Numbers(begin, n), drained := s.published);
            && Steps(s0, t, n + 4) == At(after.(busy := true, holder := Some(t)), t, Release(Drained(begin, out)))
            && Steps(s0, t, n + 5) == after.(holder := None)
  {
    hide Steps, ReadBegin;
    var s0, n, begin := Next(s, Start(t, Read(true))), ReadCount(s, true), ReadBegin(s, true);
    var out := InRing(s.records, begin, n);
    var read := s.(busy := true, holder := Some(t), delivered := s.delivered + Numbers(begin, n));
    var after := read.(drained := s.published);
    ReadStarts(s, t, true);
    DeliverSteps(s, t, true, n);
    StepsAdd(s0, t, 2, n);
    OneMoreStep(s0, t, n + 2);
    OneMoreStep(s0, t, n + 3);
    OneMoreStep(s0, t, n + 4);
    AtTwice(read, t, Deliver(true, begin, s.published, out), MarkDrained(begin, s.published, out));
    assert Steps(s0, t, n + 3) == At(read, t, MarkDrained(begin, s.published, out));
    AtTwice(after, t, MarkDrained(begin, s.published, out), Release(Drained(begin, out)));
    assert Steps(s0, t, n + 4) == At(after, t, Release(Drained(begin, out)));
    AtTwice(s, t, Release(Drained(begin, out)), Idle);
    assert Steps(s0, t, n + 5).threads == s.threads;
  }

  /** A call that finds the lock taken gives up at once: a publish is counted as refused, a read or a clear
      leaves no trace. */
  lemma BusyCallsGiveUp(s: System, t: nat, call: Call)
    requires |s.records| == CAPACITY && t < |s.threads| && s.threads[t] == Idle && s.busy
    ensures Steps(Next(s, Start(t, call)), t, if call.Publish? then 2 else 1)
            == if call.Publish? then s.(contended := s.contended + 1, refused := s.refused + 1) else s
  {
    hide Steps;
    var s0 := Next(s, Start(t, call));
    OneMoreStep(s0, t, 0);
    OneMoreStep(s0, t, 1);
    match call
    case Publish(record) =>
      AtTwice(s, t, TryPublish(record), CountDrop);
      AtTwice(s, t, CountDrop, Idle);
      assert Steps(s0, t, 1) == At(s, t, CountDrop);
      assert Steps(s0, t, 2).threads == s.threads;
    case Read(consume) => AtTwice(s, t, TryRead(consume), Idle);
    case Clear => AtTwice(s, t, TryClear, Idle);
  }

  lemma DrainOneMore(s: System, n: nat)
    requires |s.records| == CAPACITY && s.threads == [Idle] && !s.busy && s.published == n + 1
    requires s.drained == n == |s.delivered|
    requires s.contended == 0 && forall i :: 0 <= i < n ==> s.delivered[i] == i
    ensures AtRest(Steps(Next(s, Start(0, Read(true))), 0, 6), n + 1)
  {
    hide Steps;
    var s0 := Next(s, Start(0, Read(true)));
    assert s0.threads == [TryRead(true)];
    var s1 := Next(s0, Advance(0));
    assert s1.threads == [Measure(true)];
    var s2 := Next(s1, Advance(0));
    assert s2.threads == [Deliver(true, n, n + 1, [])];
    var s3 := Next(s2, Advance(0));
    var out := [s.records[n % CAPACITY]];
    assert [] + out == out;
    assert s3.threads == [Deliver(true, n, n + 1, out)];
    var s4 := Next(s3, Advance(0));
    assert s4.threads == [MarkDrained(n, n + 1, out)];
    var s5 := Next(s4, Advance(0));
    assert s5.threads == [Release(Drained(n, out))];
    var s6 := Next(s5, Advance(0));
    FiveSteps(0, s0, s1, s2, s3, s4, s5);
    OneMoreStep(s0, 0, 5);
  }

  lemma {:induction false} RunSteps(threads: nat, events: seq<Event>, n: nat) returns (more: seq<Event>)
    ensures Run(threads, more) == Steps(Run(threads, events), 0, n)
  {
    if n == 0 {
      more := events;
    } else {
      var before := RunSteps(threads, events, n - 1);
      more := RunOne(threads, before, Advance(0));
    }
  }

  lemma RunOne(threads: nat, events: seq<Event>, e: Event) returns (more: seq<Event>)
    ensures more == events + [e] && Run(threads, more) == Next(Run(threads, events), e)
  {
    more := events + [e];
    assert more[..|more| - 1] == events;
  }

  lemma {:induction false} DrainedRun(n: nat) returns (events: seq<Event>)
    ensures AtRest(Run(1, events), n)
  {
    if n == 0 {
      events := [];
    } else {
      var before := DrainedRun(n - 1);
      hide AtRest, Next, Run, Steps;
      PublishedAtRest(Run(1, before), n - 1);
      PublishAlone(Run(1, before), 0, BLANK);
      events := RunOne(1, before, Start(0, Publish(BLANK)));
      events := RunSteps(1, events, 5);
      DrainOneMore(Run(1, events), n - 1);
      events := RunOne(1, events, Start(0, Read(true)));
      events := RunSteps(1, events, 6);
    }
  }

  lemma PublishedAtRest(s: System, n: nat)
    requires AtRest(s, n)
    ensures s.threads == [Idle] && !s.busy && s.published == s.drained == n == |s.delivered| && s.contended == 0
    ensures forall i :: 0 <= i < n ==> s.delivered[i] == i
  {
  }

  /** The count in a record can exceed what was lost: here nothing was, yet it is at least 1. */
  lemma LossCountCanOverstate() returns (events: seq<Event>)
    ensures var s := Run(1, events);
            && |s.delivered| == s.published == |s.log| == CAPACITY + 1 && s.contended == 0
            && s.log[CAPACITY].droppedBefore >= 1
  {
    events := DrainedRun(CAPACITY + 1);
    RunSound(1, events);
    LossCountCoversOverwritten(Run(1, events), 1, events, CAPACITY);
  }
}
