/** No process waits forever: some step is always possible, and every run ends. */
module SharedTextProgress {
  import opened CStrings
  import opened Counting
  import opened SharedText
  import opened SharedTextLocks
  import opened SharedTextReads

  ghost predicate AllGone(s: State) {
    && (forall w :: 0 <= w < |s.writers| ==> s.writers[w].pc.Gone?)
    && (forall r :: 0 <= r < |s.readers| ==> s.readers[r].pc.Left?)
  }

  /** The next statement of the process, as opposed to a crash. */
  predicate Proper(e: Event) {
    e.WStep? || e.RStep?
  }

  /** The holder of a lock can always go on: copying, reading and releasing never block. */
  lemma HolderMoves(s: State)
    requires LocksOk(s) && MemoryOk(s)
    ensures forall w :: 0 <= w < |s.writers| && WriterHolds(s.writers[w]) == 1 ==> Enabled(s, WStep(w))
    ensures forall r :: 0 <= r < |s.readers| && ReaderHolds(s.readers[r]) == 1 ==> Enabled(s, RStep(r))
  {
    forall w | 0 <= w < |s.writers| && WriterHolds(s.writers[w]) == 1 ensures Enabled(s, WStep(w)) {
      SumAtLeast(s.writers, w, WriterHolds);
      WriterUnlockIs(s.vals, s.writers[w].undo);
    }
    forall r | 0 <= r < |s.readers| && ReaderHolds(s.readers[r]) == 1 ensures Enabled(s, RStep(r)) {
      SumAtLeast(s.readers, r, ReaderHolds);
      ReaderUnlockIs(s.vals, s.readers[r].undo);
    }
  }

  /** Whoever holds a semaphore that somebody waits for can move. */
  lemma SomeHolderMoves(s: State) returns (e: Event)
    requires LocksOk(s) && MemoryOk(s) && (s.vals.s0 > 0 || s.vals.s1 > 0)
    ensures Proper(e) && Enabled(s, e)
  {
    HolderMoves(s);
    if s.vals.s0 > 0 {
      var r := SumWitness(s.readers, ReaderHolds);
      e := RStep(r);
    } else {
      var w := SumWitness(s.writers, WriterHolds);
      e := WStep(w);
    }
  }

  /** No deadlock: while any process is left, some process has a next step. */
  lemma NoDeadlock(s: State) returns (e: Event)
    requires LocksOk(s) && MemoryOk(s) && !AllGone(s)
    ensures Proper(e) && Enabled(s, e)
  {
    if s.vals.s0 > 0 || s.vals.s1 > 0 {
      e := SomeHolderMoves(s);
    } else if w :| 0 <= w < |s.writers| && !s.writers[w].pc.Gone? {
      WriterLockIs(s.vals, s.writers[w].undo);
      SumAtLeast(s.writers, w, WriterHolds);
      e := WStep(w);
    } else {
      var r :| 0 <= r < |s.readers| && !s.readers[r].pc.Left?;
      ReaderLockIs(s.vals, s.readers[r].undo);
      SumAtLeast(s.readers, r, ReaderHolds);
      e := RStep(r);
    }
  }

  // ----- Every run is finite -----

  function WriterRank(p: Writer): nat {
    match p.pc
    case ToLock(i) => if i < |p.texts| then (|p.texts| - i) * 200 else 0
    case Copying(i, k, _) => if i < |p.texts| && k < SEGMENT then (|p.texts| - i) * 200 - 1 - k else 0
    case ToUnlock(i) => if i < |p.texts| then (|p.texts| - i) * 200 - 150 else 0
    case ToExit => 1
    case Gone => 0
  }

  function ReaderRank(p: Reader): nat {
    match p.pc
    case Waiting => 104
    case Reading(acc, _, _) => if |acc| < SEGMENT then 103 - |acc| else 0
    case Printed => 2
    case Leaving => 1
    case Left => 0
  }

  ghost function Measure(s: State): nat {
    Sum(s.writers, WriterRank) + Sum(s.readers, ReaderRank)
  }

  lemma WriterStepLowers(s: State, w: nat)
    requires MemoryOk(s) && Enabled(s, WStep(w))
    ensures var t := WriterNext(s, w);
            && t.writers == s.writers[w := t.writers[w]] && t.readers == s.readers
            && WriterRank(t.writers[w]) < WriterRank(s.writers[w])
  {
    var p := s.writers[w];
    assert p.pc.Copying? ==> ValidText(p.texts[p.pc.round]);
  }

  lemma ReaderStepLowers(s: State, r: nat)
    requires MemoryOk(s) && Enabled(s, RStep(r))
    ensures var t := ReaderNext(s, r);
            && t.readers == s.readers[r := t.readers[r]] && t.writers == s.writers
            && ReaderRank(t.readers[r]) < ReaderRank(s.readers[r])
  {
    var pc := s.readers[r].pc;
    assert pc.Reading? && s.memory[|pc.acc|] != NUL ==> |pc.acc| != SEGMENT - 1;
  }

  lemma StepLowersMeasure(s: State, e: Event)
    requires MemoryOk(s) && Enabled(s, e)
    ensures Measure(Next(s, e)) < Measure(s)
  {
    var t := Next(s, e);
    match e
    case WStep(w) =>
      WriterStepLowers(s, w);
      SumUpdate(s.writers, w, t.writers[w], WriterRank);
    case RStep(r) =>
      ReaderStepLowers(s, r);
      SumUpdate(s.readers, r, t.readers[r], ReaderRank);
    case WCrash(w) =>
      SumUpdate(s.writers, w, t.writers[w], WriterRank);
    case RCrash(r) =>
      SumUpdate(s.readers, r, t.readers[r], ReaderRank);
  }

  /** No run, with or without crashes, is longer than the measure of its start. */
  lemma {:induction false} RunsAreFinite(s: State, es: seq<Event>)
    requires LocksOk(s) && MemoryOk(s) && Legal(s, es)
    ensures |es| + Measure(Exec(s, es)) <= Measure(s)
    decreases es
  {
    if es == [] {
    } else {
      StepKeepsLocks(s, es[0]);
      StepKeepsMemory(s, es[0]);
      StepLowersMeasure(s, es[0]);
      RunsAreFinite(Next(s, es[0]), es[1..]);
    }
  }

  /** A run that cannot be continued has let every process go and left both semaphores at zero. */
  lemma StuckMeansDone(memory: string, servers: seq<seq<string>>, readers: nat, es: seq<Event>)
    requires ValidMemory(memory) && forall w :: 0 <= w < |servers| ==> ValidServer(servers[w])
    requires Legal(Init(memory, servers, readers), es)
    requires forall e :: Proper(e) ==> !Enabled(Exec(Init(memory, servers, readers), es), e)
    ensures var s := Exec(Init(memory, servers, readers), es);
            AllGone(s) && s.vals == ZERO
  {
    var s := Exec(Init(memory, servers, readers), es);
    InitMemoryOk(memory, servers, readers);
    RunKeepsMemory(Init(memory, servers, readers), es);
    if !AllGone(s) {
      var e := NoDeadlock(s);
      assert false;
    }
    SumZero(s.writers, WriterHolds);
    SumZero(s.readers, ReaderHolds);
  }
}
