/** Any number of threads changing one bitset at the same time, one atomic load, exchange or store at a
    time: what the words hold, what a failed exchange means, and which call a bit shows in the end. */
module BitsetInterleaving {
  import opened Options
  import opened WordBits
  import opened AtomicBits

  /** An operation that took effect, and a call that was made, with the thread that did it. */
  datatype Entry = Entry(thread: nat, op: WordOp)
  datatype Issue = Issue(thread: nat, call: Call)

  /** A thread's operations still to be made, the word it has loaded for the first of them and when (as a
      position in the log), and how often its exchange has failed. */
  datatype Thread = Thread(todo: seq<WordOp>, loaded: Option<nat>, loadedAt: nat, failures: nat)

  datatype System = System(size: nat, words: seq<nat>, threads: seq<Thread>, log: seq<Entry>, issued: seq<Issue>) {
    ghost predicate Shaped() {
      && |words| == WordsFor(size) && AreWords(words) && FitAll(Ops(log), |words|)
      && forall t :: 0 <= t < |threads| ==> FitAll(threads[t].todo, |words|)
    }
  }

  function Ops(log: seq<Entry>): (r: seq<WordOp>)
    ensures |r| == |log| && forall i :: 0 <= i < |log| ==> r[i] == log[i].op
  {
    seq(|log|, i requires 0 <= i < |log| => log[i].op)
  }

  /** An idle thread makes a call, or a thread takes its next atomic step. */
  datatype Event = Start(thread: nat, call: Call) | Advance(thread: nat)

  function Zeros(n: nat): (r: seq<nat>)
    ensures |r| == n && forall i :: 0 <= i < n ==> r[i] == 0
  {
    seq(n, _ => 0)
  }

  function Initial(size: nat, threads: nat): System {
    System(size, Zeros(WordsFor(size)), seq(threads, _ => Thread([], None, 0, 0)), [], [])
  }

  /** The first operation of a thread takes effect on a word. */
  function Committed(s: System, t: nat, newWord: nat): System
    requires t < |s.threads| && s.threads[t].todo != [] && s.threads[t].todo[0].word < |s.words|
  {
    var thread := s.threads[t];
    var op := thread.todo[0];
    s.(words := s.words[op.word := newWord], log := s.log + [Entry(t, op)],
       threads := s.threads[t := Thread(thread.todo[1..], None, 0, thread.failures)])
  }

  /** Load, exchange, or plain store, whichever the thread's loop does next. */
  function Advanced(s: System, t: nat): System
    requires t < |s.threads| && FitAll(s.threads[t].todo, |s.words|)
  {
    var thread := s.threads[t];
    if thread.todo == [] then s
    else
      var op := thread.todo[0];
      if op.Whole? then Committed(s, t, op.Apply(0))
      else if thread.loaded.None? then
        s.(threads := s.threads[t := thread.(loaded := Some(s.words[op.word]), loadedAt := |s.log|)])
      else if s.words[op.word] == thread.loaded.value then Committed(s, t, op.Apply(thread.loaded.value))
      else s.(threads := s.threads[t := thread.(loaded := None, loadedAt := 0, failures := thread.failures + 1)])
  }

  function Started(s: System, t: nat, call: Call): System
    requires t < |s.threads|
  {
    if s.threads[t].todo != [] || !call.Within(s.size) then s
    else s.(threads := s.threads[t := s.threads[t].(todo := OpsOf(call))], issued := s.issued + [Issue(t, call)])
  }

  function Next(s: System, e: Event): (s': System)
    requires s.Shaped()
    ensures s'.size == s.size && |s'.threads| == |s.threads|
  {
    if e.thread >= |s.threads| then s
    else match e
         case Start(t, call) => Started(s, t, call)
         case Advance(t) => Advanced(s, t)
  }

  // --- histories ----------------------------------------------------------------------------------------

  /** The operations of one thread, in the order they took effect. */
  function Own(log: seq<Entry>, t: nat): seq<WordOp> {
    if log == [] then []
    else if log[|log| - 1].thread == t then Own(log[..|log| - 1], t) + [log[|log| - 1].op]
    else Own(log[..|log| - 1], t)
  }

  function Others(log: seq<Entry>, t: nat): nat {
    if log == [] then 0
    else Others(log[..|log| - 1], t) + (if log[|log| - 1].thread != t then 1 else 0)
  }

  /** The operations of all calls of one thread, in the order of the calls. */
  function Asked(issued: seq<Issue>, t: nat): seq<WordOp> {
    if issued == [] then []
    else if issued[|issued| - 1].thread == t then Asked(issued[..|issued| - 1], t) + OpsOf(issued[|issued| - 1].call)
    else Asked(issued[..|issued| - 1], t)
  }

  ghost predicate ThreadSound(s: System, t: nat)
    requires s.Shaped() && t < |s.threads|
  {
    var thread := s.threads[t];
    && Own(s.log, t) + thread.todo == Asked(s.issued, t)
    && (thread.loaded.None? ==> thread.failures <= Others(s.log, t))
    && (thread.loaded.Some? ==>
          && thread.todo != [] && thread.todo[0].Masked? && thread.loadedAt <= |s.log|
          && thread.failures <= Others(s.log[..thread.loadedAt], t)
          && thread.loaded.value == WordAt(s, thread.loadedAt, thread.todo[0].word)
          && forall j :: thread.loadedAt <= j < |s.log| ==> s.log[j].thread != t)
  }

  /** What a word held after the first n operations of the log. */
  ghost function WordAt(s: System, n: nat, word: nat): nat
    requires s.Shaped() && n <= |s.log| && word < |s.words|
  {
    assert forall op :: op in Ops(s.log[..n]) ==> op in Ops(s.log);
    Replay(Zeros(|s.words|), Ops(s.log[..n]))[word]
  }

  ghost predicate Sound(s: System) {
    && s.Shaped()
    && s.words == Replay(Zeros(|s.words|), Ops(s.log))
    && (forall i :: 0 <= i < |s.issued| ==> s.issued[i].call.Within(s.size) && s.issued[i].thread < |s.threads|)
    && (forall t :: 0 <= t < |s.threads| ==> ThreadSound(s, t))
    && (forall j :: 0 <= j < |s.log| ==> s.log[j].thread < |s.threads|)
  }

  ghost predicate Reachable(s: System, size: nat, threads: nat, events: seq<Event>)
    decreases |events|
  {
    if events == [] then s == Initial(size, threads)
    else exists before ::
           Reachable(before, size, threads, events[..|events| - 1]) && before.Shaped()
             && s == Next(before, events[|events| - 1])
  }

  // --- every step keeps the histories sound -----------------------------------------------------------

  lemma InitialSound(size: nat, threads: nat)
    ensures Sound(Initial(size, threads))
  {
    var s := Initial(size, threads);
    assert forall t :: 0 <= t < threads ==> s.threads[t] == Thread([], None, 0, 0);
  }

  lemma StartSound(s: System, t: nat, call: Call)
    requires Sound(s) && t < |s.threads|
    ensures Sound(Started(s, t, call))
  {
    hide Replay, OpsOf;
    var s' := Started(s, t, call);
    if s' != s {
      CallExact(call, s.size, 0);
      assert ThreadSound(s, t);
      assert s'.issued[..|s.issued|] == s.issued;
      forall u | 0 <= u < |s'.threads| ensures ThreadSound(s', u) {
        assert ThreadSound(s, u);
        if u == t {
          assert Own(s.log, t) + [] == Own(s.log, t);
        }
      }
    }
  }

  lemma CommitReplayed(s: System, t: nat)
    requires Sound(s) && t < |s.threads| && s.threads[t].todo != []
    ensures var op := s.threads[t].todo[0];
            var s' := Committed(s, t, op.Apply(s.words[op.word]));
            s'.Shaped() && s'.words == Replay(Zeros(|s'.words|), Ops(s'.log))
  {
    hide ThreadSound, Replay;
    var op := s.threads[t].todo[0];
    var s' := Committed(s, t, op.Apply(s.words[op.word]));
    ApplyBit(op, s.words[op.word], 0);
    assert FitAll(s.threads[t].todo[1..], |s.words|);
    assert Ops(s'.log) == Ops(s.log) + [op];
    ReplayOneMore(Zeros(|s.words|), Ops(s.log), op);
    hide FitAll;
  }

  lemma CommitKeepsOther(s: System, t: nat, u: nat)
    requires Sound(s) && t < |s.threads| && s.threads[t].todo != [] && u < |s.threads| && u != t
    ensures var op := s.threads[t].todo[0];
            var s' := Committed(s, t, op.Apply(s.words[op.word]));
            s'.Shaped() && ThreadSound(s', u)
  {
    CommitReplayed(s, t);
    hide Replay, Asked, FitAll, AreWords;
    assert ThreadSound(s, u);
    LogOneMore(s, t, u);
  }

  lemma CommitKeepsOwn(s: System, t: nat)
    requires Sound(s) && t < |s.threads| && s.threads[t].todo != []
    ensures var op := s.threads[t].todo[0];
            var s' := Committed(s, t, op.Apply(s.words[op.word]));
            s'.Shaped() && ThreadSound(s', t)
  {
    CommitReplayed(s, t);
    hide Replay, Asked, FitAll, AreWords;
    assert ThreadSound(s, t);
    LogOneMore(s, t, t);
    var todo := s.threads[t].todo;
    assert Own(s.log, t) + [todo[0]] + todo[1..] == Own(s.log, t) + todo;
    if s.threads[t].loaded.Some? { OthersPrefix(s.log, s.threads[t].loadedAt, t); }
  }

  lemma {:induction false} OthersPrefix(log: seq<Entry>, n: nat, t: nat)
    requires n <= |log|
    ensures Others(log[..n], t) <= Others(log, t)
    ensures (exists j :: n <= j < |log| && log[j].thread != t) ==> Others(log[..n], t) < Others(log, t)
  {
    if n < |log| {
      var front := log[..|log| - 1];
      OthersPrefix(front, n, t);
      assert front[..n] == log[..n];
    } else {
      assert log[..n] == log;
    }
  }

  lemma CommitSound(s: System, t: nat)
    requires Sound(s) && t < |s.threads| && s.threads[t].todo != []
    ensures var op := s.threads[t].todo[0]; Sound(Committed(s, t, op.Apply(s.words[op.word])))
  {
    CommitReplayed(s, t);
    hide Replay, ThreadSound;
    var op := s.threads[t].todo[0];
    var s' := Committed(s, t, op.Apply(s.words[op.word]));
    forall u | 0 <= u < |s'.threads| ensures ThreadSound(s', u) {
      if u == t { CommitKeepsOwn(s, t); } else { CommitKeepsOther(s, t, u); }
    }
  }

  lemma LogOneMore(s: System, t: nat, u: nat)
    requires Sound(s) && t < |s.threads| && u < |s.threads| && s.threads[t].todo != []
    ensures var log := s.log + [Entry(t, s.threads[t].todo[0])];
            && Own(log, u) == (if u == t then Own(s.log, u) + [s.threads[t].todo[0]] else Own(s.log, u))
            && Others(log, u) == Others(s.log, u) + (if u == t then 0 else 1)
            && forall n :: 0 <= n <= |s.log| ==> log[..n] == s.log[..n]
  {
    hide Replay;
    assert (s.log + [Entry(t, s.threads[t].todo[0])])[..|s.log|] == s.log;
  }

  /** The store of a whole word does not depend on what it replaces. */
  lemma AdvanceCases(s: System, t: nat)
    requires Sound(s) && t < |s.threads| && s.threads[t].todo != []
    ensures var thread := s.threads[t];
            var op := thread.todo[0];
            if op.Whole? || (thread.loaded.Some? && s.words[op.word] == thread.loaded.value)
            then Advanced(s, t) == Committed(s, t, op.Apply(s.words[op.word]))
            else Advanced(s, t).words == s.words && Advanced(s, t).log == s.log && Advanced(s, t).issued == s.issued
  {
    hide Replay, ThreadSound, Committed;
  }

  /** The thread's next step is an exchange that will not find the word it loaded. */
  ghost predicate ExchangeFails(s: System, t: nat)
    requires t < |s.threads|
  {
    var thread := s.threads[t];
    thread.loaded.Some? && thread.todo != [] && thread.todo[0].word < |s.words|
      && s.words[thread.todo[0].word] != thread.loaded.value
  }

  /** A failed exchange means that another thread changed the word after it was loaded. */
  lemma FailedExchangeWasOvertaken(s: System, t: nat)
    requires Sound(s) && t < |s.threads| && ExchangeFails(s, t)
    ensures exists j ::
              s.threads[t].loadedAt <= j < |s.log| && s.log[j].op.word == s.threads[t].todo[0].word
                && s.log[j].thread != t
  {
    assert ThreadSound(s, t);
    var at, word := s.threads[t].loadedAt, s.threads[t].todo[0].word;
    if forall j :: at <= j < |s.log| ==> s.log[j].op.word != word {
      UnchangedSince(s, at, word);
    }
  }

  lemma OpsSplit(log: seq<Entry>, n: nat, nWords: nat)
    requires n <= |log| && FitAll(Ops(log), nWords)
    ensures Ops(log) == Ops(log[..n]) + Ops(log[n..]) && FitAll(Ops(log[..n]), nWords) && FitAll(Ops(log[n..]), nWords)
  {
    var before, after := Ops(log[..n]), Ops(log[n..]);
    assert Ops(log) == before + after;
    assert forall op :: op in before || op in after ==> op in before + after;
  }

  lemma UnchangedSince(s: System, n: nat, word: nat)
    requires Sound(s) && n <= |s.log| && word < |s.words| && forall j :: n <= j < |s.log| ==> s.log[j].op.word != word
    ensures s.words[word] == WordAt(s, n, word)
  {
    hide ThreadSound, Replay;
    var before, after := Ops(s.log[..n]), Ops(s.log[n..]);
    OpsSplit(s.log, n, |s.words|);
    hide FitAll, AreWords;
    ReplayConcat(Zeros(|s.words|), before, after);
    ReplayElsewhere(Replay(Zeros(|s.words|), before), after, word);
  }

  /** A step that changes nothing but the thread that makes it. */
  lemma QuietSound(s: System, t: nat, thread: Thread)
    requires Sound(s) && t < |s.threads| && thread.todo == s.threads[t].todo
    requires thread.failures <= Others(s.log, t)
    requires thread.loaded.Some? ==> thread.todo != [] && thread.todo[0].Masked? && thread.loadedAt == |s.log|
    requires thread.loaded.Some? ==> thread.loaded.value == s.words[thread.todo[0].word]
    ensures Sound(s.(threads := s.threads[t := thread]))
  {
    hide Replay, Own, Others, Asked, FitAll, AreWords;
    var s' := s.(threads := s.threads[t := thread]);
    assert s.log[..|s.log|] == s.log;
    forall u | 0 <= u < |s'.threads| ensures s'.Shaped() && ThreadSound(s', u) { assert ThreadSound(s, u); }
  }

  lemma OvertakenOnceMore(s: System, t: nat)
    requires Sound(s) && t < |s.threads| && ExchangeFails(s, t)
    ensures s.threads[t].failures + 1 <= Others(s.log, t)
  {
    FailedExchangeWasOvertaken(s, t);
    hide Replay, Own, Others, Asked, FitAll, AreWords;
    assert ThreadSound(s, t);
    OthersPrefix(s.log, s.threads[t].loadedAt, t);
  }

  lemma RetrySound(s: System, t: nat)
    requires Sound(s) && t < |s.threads| && ExchangeFails(s, t) && s.threads[t].todo[0].Masked?
    ensures Sound(Advanced(s, t))
  {
    OvertakenOnceMore(s, t);
    hide Replay, Own, Others, Asked, FitAll, AreWords, ThreadSound;
    var thread := s.threads[t];
    var after := thread.(loaded := None, loadedAt := 0, failures := thread.failures + 1);
    QuietSound(s, t, after);
    assert Advanced(s, t) == s.(threads := s.threads[t := after]);
  }

  lemma LoadSound(s: System, t: nat)
    requires Sound(s) && t < |s.threads| && s.threads[t].loaded.None? && s.threads[t].todo != []
    requires s.threads[t].todo[0].Masked?
    ensures Sound(Advanced(s, t))
  {
    assert ThreadSound(s, t);
    var thread := s.threads[t];
    QuietSound(s, t, thread.(loaded := Some(s.words[thread.todo[0].word]), loadedAt := |s.log|));
  }

  lemma NextSound(s: System, e: Event)
    requires Sound(s)
    ensures Sound(Next(s, e))
  {
    hide Committed, Advanced, Replay;
    if e.thread < |s.threads| {
      match e
      case Start(t, call) => StartSound(s, t, call);
      case Advance(t) => AdvanceSound(s, t);
    }
  }

  lemma AdvanceSound(s: System, t: nat)
    requires Sound(s) && t < |s.threads|
    ensures Sound(Advanced(s, t))
  {
    hide Committed, Replay;
    var thread := s.threads[t];
    if thread.todo != [] {
      AdvanceCases(s, t);
      CommitSound(s, t);
      if thread.todo[0].Masked? {
        assert ThreadSound(s, t);
        if thread.loaded.None? {
          LoadSound(s, t);
        } else if s.words[thread.todo[0].word] != thread.loaded.value {
          RetrySound(s, t);
        }
      }
    }
  }

  lemma {:induction false} ReachableSound(s: System, size: nat, threads: nat, events: seq<Event>)
    requires Reachable(s, size, threads, events)
    ensures Sound(s) && s.size == size && |s.threads| == threads
    decreases |events|
  {
    hide Sound, Next, System.Shaped;
    if events == [] {
      InitialSound(size, threads);
    } else {
      var before :| Reachable(before, size, threads, events[..|events| - 1]) && before.Shaped()
        && s == Next(before, events[|events| - 1]);
      ReachableSound(before, size, threads, events[..|events| - 1]);
      NextSound(before, events[|events| - 1]);
    }
  }

  // --- what readers see -----------------------------------------------------------------------------------

  /** Under every interleaving each word is its committed operations applied in the order they took
      effect, so a bit shows the last one that covers it. */
  lemma BitsFollowLog(s: System, size: nat, threads: nat, events: seq<Event>, k: nat)
    requires Reachable(s, size, threads, events) && k < WordsFor(size) * BITS
    ensures |s.words| == WordsFor(size) && FitAll(Ops(s.log), |s.words|)
    ensures s.words == Replay(Zeros(|s.words|), Ops(s.log))
    ensures match Latest(Ops(s.log), k) case Some(v) => BitAt(s.words, k) == v case None => !BitAt(s.words, k)
  {
    hide Reachable, Replay, Latest, ThreadSound;
    ReachableSound(s, size, threads, events);
    ReplayBit(Zeros(|s.words|), Ops(s.log), k);
    ZeroBits(k % BITS);
  }

  /** No thread retries more often than the others change the bitset. */
  lemma RetriesArePaidFor(s: System, size: nat, threads: nat, events: seq<Event>, t: nat)
    requires Reachable(s, size, threads, events) && t < threads
    ensures t < |s.threads| && s.threads[t].failures <= Others(s.log, t)
  {
    ReachableSound(s, size, threads, events);
    assert ThreadSound(s, t);
    if s.threads[t].loaded.Some? { OthersPrefix(s.log, s.threads[t].loadedAt, t); }
  }

  /** The value the last of a thread's calls that includes a bit gives it, as a loop over bits would. */
  function LastCall(issued: seq<Issue>, t: nat, k: nat): Option<bool> {
    if issued == [] then None
    else
      var last := issued[|issued| - 1];
      if last.thread == t && last.call.Includes(k) then Some(last.call.bit) else LastCall(issued[..|issued| - 1], t, k)
  }

  lemma {:induction false} AskedIsLastCall(issued: seq<Issue>, t: nat, k: nat, size: nat)
    requires forall i :: 0 <= i < |issued| ==> issued[i].call.Within(size)
    ensures Latest(Asked(issued, t), k) == LastCall(issued, t, k)
  {
    hide Latest, OpsOf;
    if issued == [] {
      assert Latest([], k) == None by { EmptyLatest(k); }
    } else {
      var front, last := issued[..|issued| - 1], issued[|issued| - 1];
      AskedIsLastCall(front, t, k, size);
      CallExact(last.call, size, k);
      LatestConcat(Asked(front, t), OpsOf(last.call), k);
    }
  }

  lemma EmptyLatest(k: nat)
    ensures Latest([], k) == None
  {
  }

  /** The last operation covering a bit belongs to some thread, and is that thread's last one on the bit. */
  lemma {:induction false} LatestHasOwner(log: seq<Entry>, k: nat) returns (t: nat)
    requires Latest(Ops(log), k).Some?
    ensures Latest(Own(log, t), k) == Latest(Ops(log), k) && exists j :: 0 <= j < |log| && log[j].thread == t
  {
    hide WordOp.Covers;
    var front, last := log[..|log| - 1], log[|log| - 1];
    assert Ops(log)[..|log| - 1] == Ops(front);
    if last.op.Covers(k) {
      t := last.thread;
      assert Own(log, t)[|Own(log, t)| - 1] == last.op;
    } else {
      t := LatestHasOwner(front, k);
      LatestConcat(Own(front, t), [last.op], k);
      LatestOfOne(last.op, k);
      var j :| 0 <= j < |front| && front[j].thread == t;
      assert log[j].thread == t;
    }
  }

  lemma LatestOfOne(op: WordOp, k: nat)
    ensures Latest([op], k) == if op.Covers(k) then Some(op.value) else None
  {
    hide WordOp.Covers;
    assert [op][..0] == [];
  }

  lemma {:induction false} OwnHasNone(log: seq<Entry>, k: nat, t: nat)
    requires Latest(Ops(log), k).None?
    ensures Latest(Own(log, t), k).None?
  {
    if log != [] {
      var front, last := log[..|log| - 1], log[|log| - 1];
      assert Ops(log)[..|log| - 1] == Ops(front);
      OwnHasNone(front, k, t);
      if last.thread == t { assert Own(log, t)[..|Own(log, t)| - 1] == Own(front, t); }
    }
  }

  /** A set or clear bit's owner, if any operation covers it. */
  lemma BitHasOwner(s: System, size: nat, threads: nat, events: seq<Event>, k: nat) returns (t: nat)
    requires Reachable(s, size, threads, events) && k < size
    ensures Sound(s) && s.size == size && |s.threads| == threads && |s.words| == WordsFor(size)
    ensures t < threads ==> Latest(Own(s.log, t), k) == Some(BitAt(s.words, k))
    ensures t >= threads ==> !BitAt(s.words, k) && forall u :: Latest(Own(s.log, u), k).None?
  {
    BitsFollowLog(s, size, threads, events, k);
    ReachableSound(s, size, threads, events);
    hide Reachable, Replay, Latest, Own, ThreadSound, FitAll, AreWords, BitAt, Ops;
    if Latest(Ops(s.log), k).Some? {
      t := LatestHasOwner(s.log, k);
    } else {
      t := threads;
      forall u ensures Latest(Own(s.log, u), k).None? { OwnHasNone(s.log, k, u); }
    }
  }

  /** When all threads are idle, a bit that no call included is clear, and any other shows the last call
      that some thread made for it: no call is lost or half done. */
  lemma IdleBitsShowSomeLastCall(s: System, size: nat, threads: nat, events: seq<Event>, k: nat)
    requires Reachable(s, size, threads, events) && k < size
    requires forall t :: 0 <= t < |s.threads| ==> s.threads[t].todo == []
    ensures |s.words| == WordsFor(size)
    ensures (forall t :: 0 <= t < threads ==> LastCall(s.issued, t, k).None?) ==> !BitAt(s.words, k)
    ensures (exists t :: 0 <= t < threads && LastCall(s.issued, t, k).Some?) ==>
              exists t :: 0 <= t < threads && LastCall(s.issued, t, k) == Some(BitAt(s.words, k))
  {
    hide Reachable, Replay, Latest, LastCall, Own, ThreadSound;
    var owner := BitHasOwner(s, size, threads, events, k);
    forall t | 0 <= t < threads ensures Latest(Own(s.log, t), k) == LastCall(s.issued, t, k) { OwnIsLastCall(s, t, k); }
    hide Sound;
  }

  /** A bit that only one thread's calls include shows that thread's last call once it is idle, however
      the other threads work on the same word meanwhile. */
  lemma OnlyWriterWins(s: System, size: nat, threads: nat, events: seq<Event>, k: nat, t: nat)
    requires Reachable(s, size, threads, events) && k < size && t < |s.threads| && s.threads[t].todo == []
    requires forall u :: u != t ==> LastCall(s.issued, u, k).None?
    ensures |s.words| == WordsFor(size)
    ensures BitAt(s.words, k) == (LastCall(s.issued, t, k) == Some(true))
  {
    hide Reachable, Replay, Latest, LastCall, Own, ThreadSound;
    var owner := BitHasOwner(s, size, threads, events, k);
    OwnIsLastCall(s, t, k);
    if owner < threads && owner != t { OwnWithinCalls(s, owner, k); }
  }

  /** What took effect of a thread's calls touches no bit the calls do not include. */
  lemma OwnWithinCalls(s: System, t: nat, k: nat)
    requires Sound(s) && t < |s.threads|
    ensures LastCall(s.issued, t, k).None? ==> Latest(Own(s.log, t), k).None?
  {
    hide Replay, Latest, LastCall, Own, Asked;
    assert ThreadSound(s, t);
    AskedIsLastCall(s.issued, t, k, s.size);
    LatestConcat(Own(s.log, t), s.threads[t].todo, k);
  }

  lemma OwnIsLastCall(s: System, t: nat, k: nat)
    requires Sound(s) && t < |s.threads| && s.threads[t].todo == []
    ensures Latest(Own(s.log, t), k) == LastCall(s.issued, t, k)
  {
    hide Replay, Latest, LastCall;
    assert ThreadSound(s, t);
    assert Own(s.log, t) + [] == Own(s.log, t);
    AskedIsLastCall(s.issued, t, k, s.size);
  }

  // --- a call that nobody disturbs ------------------------------------------------------------------------

  /** The thread takes n steps while the others rest. */
  ghost predicate RunsOnly(s: System, t: nat, n: nat, end: System)
    decreases n
  {
    if n == 0 then s == end else s.Shaped() && RunsOnly(Next(s, Advance(t)), t, n - 1, end)
  }

  /** The thread's operations have taken effect, in order, and nothing else has happened. */
  ghost predicate Finished(s: System, t: nat, end: System)
    requires s.Shaped() && t < |s.threads|
  {
    && end.Shaped() && end.size == s.size && end.issued == s.issued && |end.threads| == |s.threads|
    && end.threads[t].todo == [] && end.threads[t].loaded.None?
    && (forall u :: 0 <= u < |s.threads| && u != t ==> end.threads[u] == s.threads[u])
    && end.words == Replay(s.words, s.threads[t].todo)
    && Ops(end.log) == Ops(s.log) + s.threads[t].todo
  }

  /** The word loaded for the next exchange has changed since. */
  predicate Outdated(s: System, t: nat)
    requires t < |s.threads|
  {
    var thread := s.threads[t];
    thread.loaded.Some? && thread.todo != [] && thread.todo[0].word < |s.words|
    && s.words[thread.todo[0].word] != thread.loaded.value
  }

  predicate Current(s: System, t: nat)
    requires t < |s.threads|
  {
    s.threads[t].loaded.Some? && !Outdated(s, t)
  }

  /** A thread that runs alone completes its operations, each in at most two steps, but for one exchange that
      may fail first. */
  lemma {:induction false} CompletesAlone(s: System, t: nat) returns (n: nat, end: System)
    requires Sound(s) && t < |s.threads|
    ensures RunsOnly(s, t, n, end) && Finished(s, t, end)
    ensures n <= 2 * |s.threads[t].todo| + (if Outdated(s, t) then 1 else 0)
    ensures Current(s, t) ==> n < 2 * |s.threads[t].todo|
    decreases |s.threads[t].todo|, if Outdated(s, t) then 2 else if s.threads[t].loaded.None? then 1 else 0
  {
    hide Committed, Replay, ThreadSound, Finished;
    var thread := s.threads[t];
    if thread.todo == [] {
      n, end := 0, s;
      NothingToDo(s, t);
      return;
    }
    var next := Advanced(s, t);
    AdvanceSound(s, t);
    StepTaken(s, t);
    hide Advanced;
    n, end := CompletesAlone(next, t);
    assert next == Next(s, Advance(t));
    n := n + 1;
    if next.threads[t].todo == thread.todo {
      SameWork(s, t, next, end);
    } else {
      LessWork(s, t, next, end);
    }
  }

  lemma NothingToDo(s: System, t: nat)
    requires Sound(s) && t < |s.threads| && s.threads[t].todo == []
    ensures Finished(s, t, s) && !Outdated(s, t) && !Current(s, t)
  {
    assert ThreadSound(s, t);
    assert Ops(s.log) + [] == Ops(s.log);
  }

  /** One step alone either prepares the next operation or makes it. */
  lemma StepTaken(s: System, t: nat)
    requires Sound(s) && t < |s.threads| && s.threads[t].todo != []
    ensures var op, next := s.threads[t].todo[0], Advanced(s, t);
            && |next.threads| == |s.threads| && next.size == s.size && next.issued == s.issued
            && (forall u :: 0 <= u < |s.threads| && u != t ==> next.threads[u] == s.threads[u])
            && if op.Masked? && !Current(s, t)
               then && next.words == s.words && next.log == s.log && next.threads[t].todo == s.threads[t].todo
                    && (if Outdated(s, t) then next.threads[t].loaded.None? else Current(next, t))
               else && next.threads[t].todo == s.threads[t].todo[1..] && next.threads[t].loaded.None?
                    && next.words == Commit(s.words, op) && Ops(next.log) == Ops(s.log) + [op]
                    && (op.Whole? ==> s.threads[t].loaded.None?)
  {
    assert ThreadSound(s, t);
    var op := s.threads[t].todo[0];
    assert op in s.threads[t].todo && op.Fits() && op.word < |s.words|;
  }

  lemma SameWork(s: System, t: nat, next: System, end: System)
    requires s.Shaped() && next.Shaped() && t < |s.threads| && |next.threads| == |s.threads| && Finished(next, t, end)
    requires next.size == s.size && next.issued == s.issued
    requires forall u :: 0 <= u < |s.threads| && u != t ==> next.threads[u] == s.threads[u]
    requires next.words == s.words && next.log == s.log && next.threads[t].todo == s.threads[t].todo
    ensures Finished(s, t, end)
  {
    hide Replay;
  }

  lemma LessWork(s: System, t: nat, next: System, end: System)
    requires s.Shaped() && next.Shaped() && t < |s.threads| && |next.threads| == |s.threads| && Finished(next, t, end)
    requires next.size == s.size && next.issued == s.issued && s.threads[t].todo != []
    requires forall u :: 0 <= u < |s.threads| && u != t ==> next.threads[u] == s.threads[u]
    requires var op := s.threads[t].todo[0];
             && next.threads[t].todo == s.threads[t].todo[1..] && op.Fits() && op.word < |s.words|
             && next.words == Commit(s.words, op) && Ops(next.log) == Ops(s.log) + [op]
    ensures Finished(s, t, end)
  {
    hide Replay, Ops;
    var todo := s.threads[t].todo;
    assert todo == [todo[0]] + todo[1..];
    ReplayConcat(s.words, [todo[0]], todo[1..]);
    ReplaySingle(s.words, [todo[0]]);
    assert Ops(s.log) + [todo[0]] + todo[1..] == Ops(s.log) + todo;
  }

  /** A call that an idle thread makes and that nobody disturbs sets exactly its bits, in at most two steps per
      word it touches. */
  lemma CallAlone(s: System, t: nat, call: Call) returns (n: nat, end: System)
    requires Sound(s) && t < |s.threads| && s.threads[t].todo == [] && call.Within(s.size)
    ensures RunsOnly(Next(s, Start(t, call)), t, n, end) && n <= 2 * |OpsOf(call)|
    ensures |end.threads| == |s.threads| && end.threads[t].todo == []
    ensures forall u :: 0 <= u < |s.threads| && u != t ==> end.threads[u] == s.threads[u]
    ensures |end.words| == |s.words| && end.issued == s.issued + [Issue(t, call)]
    ensures forall k :: 0 <= k < |s.words| * BITS ==>
              BitAt(end.words, k) == if call.Includes(k) then call.bit else BitAt(s.words, k)
  {
    hide Replay, ThreadSound, Latest;
    var started := Next(s, Start(t, call));
    NextSound(s, Start(t, call));
    NothingToDo(s, t);
    n, end := CompletesAlone(started, t);
    forall k | 0 <= k < |s.words| * BITS
      ensures BitAt(end.words, k) == if call.Includes(k) then call.bit else BitAt(s.words, k)
    {
      CallExact(call, s.size, k);
      ReplayBit(s.words, OpsOf(call), k);
    }
  }
}
