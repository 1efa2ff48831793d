/** What the server and the clients have done when nothing is left to do. */
module SharedTextRounds {
  import opened CStrings
  import opened Counting
  import opened SharedText
  import opened SharedTextLocks
  import opened SharedTextReads
  import opened SharedTextProgress

  ghost predicate Stuck(s: State) {
    forall e :: Proper(e) ==> !Enabled(s, e)
  }

  /** A run in which no client crashes and which cannot go on. */
  ghost predicate Complete(s: State, es: seq<Event>) {
    Legal(s, es) && ClientsLive(es) && Stuck(Exec(s, es))
  }

  predicate ServerLives(es: seq<Event>) {
    forall i :: 0 <= i < |es| ==> !es[i].WCrash?
  }

  predicate ClientsLive(es: seq<Event>) {
    forall i :: 0 <= i < |es| ==> !es[i].RCrash?
  }

  lemma StuckIsGone(s: State)
    requires LocksOk(s) && MemoryOk(s) && Stuck(s)
    ensures AllGone(s)
  {
    if !AllGone(s) {
      var e := NoDeadlock(s);
      assert false;
    }
  }

  lemma RunCons(s: State, e: Event, es: seq<Event>)
    requires Enabled(s, e) && Legal(Next(s, e), es)
    ensures Legal(s, [e] + es) && Exec(s, [e] + es) == Exec(Next(s, e), es)
  {
    assert ([e] + es)[1..] == es;
  }

  /** Without any crash the processes can always bring everything to an end. */
  lemma {:induction false} CanFinish(s: State) returns (es: seq<Event>)
    requires LocksOk(s) && MemoryOk(s)
    ensures Complete(s, es) && ServerLives(es)
    decreases Measure(s)
  {
    if AllGone(s) {
      es := [];
    } else {
      var e := NoDeadlock(s);
      StepLowersMeasure(s, e);
      StepKeepsLocks(s, e);
      StepKeepsMemory(s, e);
      var rest := CanFinish(Next(s, e));
      RunCons(s, e, rest);
      es := [e] + rest;
    }
  }

  // ----- The server does all its rounds -----

  /** The server does not leave before it has published every text. */
  ghost predicate ServerIsDone(s: State) {
    && |s.writers| == 1
    && (s.writers[0].pc.ToExit? || s.writers[0].pc.Gone? ==> s.finished == |s.writers[0].texts|)
  }

  lemma StepKeepsServer(s: State, first: string, e: Event)
    requires Sound(s, first) && ServerIsDone(s) && Enabled(s, e) && !e.WCrash?
    ensures ServerIsDone(Next(s, e))
  {
    if e.WStep? {
      SumAtMostLength(s.writers, WriterHolds);
      WriterLockIs(s.vals, s.writers[0].undo);
      WriterUnlockIs(s.vals, s.writers[0].undo);
      assert s.writers[0].pc.ToUnlock? ==> s.writers[0].pc.round < |s.writers[0].texts|;
    }
  }

  ghost predicate Serving(s: State, first: string, texts: seq<string>) {
    Sound(s, first) && ServerIsDone(s) && s.writers[0].texts == texts
  }

  lemma StepKeepsServing(s: State, first: string, texts: seq<string>, e: Event)
    requires Serving(s, first, texts) && Enabled(s, e) && !e.WCrash?
    ensures Serving(Next(s, e), first, texts)
  {
    StepKeepsServer(s, first, e);
    StepKeepsLocks(s, e);
    StepKeepsMemory(s, e);
    StepKeepsWriterWhole(s, first, e);
    StepKeepsReadsWhole(s, first, e);
  }

  lemma {:induction false} RunKeepsServing(s: State, first: string, texts: seq<string>, es: seq<Event>)
    requires Serving(s, first, texts) && Legal(s, es) && ServerLives(es)
    ensures Serving(Exec(s, es), first, texts)
    decreases es
  {
    if es == [] {
    } else {
      StepKeepsServing(s, first, texts, es[0]);
      assert forall i :: 0 <= i < |es[1..]| ==> es[1..][i] == es[i + 1];
      RunKeepsServing(Next(s, es[0]), first, texts, es[1..]);
    }
  }

  /** If the server does not crash, then whatever the clients do it publishes sixty texts and the last one stays. */
  lemma ServerPublishesAll(memory: string, texts: seq<string>, readers: nat, es: seq<Event>)
    requires |memory| == 100 && memory[99] == '\0'
    requires |texts| == 60 && forall i :: 0 <= i < 60 ==> |texts[i]| < 100 && '\0' !in texts[i]
    requires Legal(Init(memory, [texts], readers), es) && ServerLives(es)
    requires Stuck(Exec(Init(memory, [texts], readers), es))
    ensures var s := Exec(Init(memory, [texts], readers), es);
            s.finished == 60 && CString(s.memory) == texts[59]
  {
    var s := Exec(Init(memory, [texts], readers), es);
    InitSound(memory, texts, readers);
    RunKeepsServing(Init(memory, [texts], readers), CString(memory), texts, es);
    StuckIsGone(s);
  }

  // ----- Every client prints, unless there are too many -----

  /** A client past its read. */
  function PastRead(p: Reader): nat {
    if p.pc.Printed? || p.pc.Leaving? || p.pc.Left? then 1 else 0
  }

  /** Nobody prints twice; a client that was refused or has crashed may have printed nothing. */
  lemma StepPrintsAtMostOnce(s: State, e: Event)
    requires Enabled(s, e)
    ensures var t := Next(s, e);
            |t.outputs| + Sum(s.readers, PastRead) <= |s.outputs| + Sum(t.readers, PastRead)
  {
    var t := Next(s, e);
    if e.RStep? || e.RCrash? {
      assert t.readers == s.readers[e.r := t.readers[e.r]];
      SumUpdate(s.readers, e.r, t.readers[e.r], PastRead);
    } else {
      assert t.readers == s.readers && t.outputs == s.outputs;
    }
  }

  /** A client is refused only when SEMVMX others hold the lock. */
  lemma LockIsGranted(s: State, r: nat)
    requires LocksOk(s) && |s.readers| <= SEMVMX && r < |s.readers| && s.readers[r].pc.Waiting?
    ensures !SemOp(s.vals, s.readers[r].undo, READER_LOCK).Fails?
  {
    ReaderLockIs(s.vals, s.readers[r].undo);
    assert ReaderHolds(s.readers[r]) == 0;
    SumAtMostLength(s.readers, ReaderHolds);
  }

  lemma StepPrintsOnce(s: State, e: Event)
    requires LocksOk(s) && |s.readers| <= SEMVMX && Enabled(s, e) && !e.RCrash?
    requires |s.outputs| == Sum(s.readers, PastRead)
    ensures var t := Next(s, e);
            |t.outputs| == Sum(t.readers, PastRead) && |t.readers| == |s.readers|
  {
    var t := Next(s, e);
    if e.RStep? {
      assert t.readers == s.readers[e.r := t.readers[e.r]];
      SumUpdate(s.readers, e.r, t.readers[e.r], PastRead);
      ReaderUnlockIs(s.vals, s.readers[e.r].undo);
      if s.readers[e.r].pc.Waiting? {
        LockIsGranted(s, e.r);
      }
    } else {
      assert t.readers == s.readers && t.outputs == s.outputs;
    }
  }

  lemma {:induction false} RunPrintsOnce(s: State, es: seq<Event>)
    requires LocksOk(s) && |s.readers| <= SEMVMX && Legal(s, es) && ClientsLive(es)
    requires |s.outputs| == Sum(s.readers, PastRead)
    ensures var t := Exec(s, es);
            |t.outputs| == Sum(t.readers, PastRead) && |t.readers| == |s.readers|
    decreases es
  {
    if es == [] {
    } else {
      StepKeepsLocks(s, es[0]);
      StepPrintsOnce(s, es[0]);
      assert forall i :: 0 <= i < |es[1..]| ==> es[1..][i] == es[i + 1];
      RunPrintsOnce(Next(s, es[0]), es[1..]);
    }
  }

  lemma NobodyPastRead(memory: string, servers: seq<seq<string>>, readers: nat)
    ensures Sum(Init(memory, servers, readers).readers, PastRead) == 0
  {
    SumZero(Init(memory, servers, readers).readers, PastRead);
  }

  /** With at most 32767 clients, none of which crashes, everyone prints once, whatever the servers do. */
  lemma EveryClientPrints(memory: string, servers: seq<seq<string>>, readers: nat, es: seq<Event>)
    requires ValidMemory(memory) && forall w :: 0 <= w < |servers| ==> ValidServer(servers[w])
    requires readers <= 32767 && Complete(Init(memory, servers, readers), es)
    ensures |Exec(Init(memory, servers, readers), es).outputs| == readers
  {
    var s, t := Init(memory, servers, readers), Exec(Init(memory, servers, readers), es);
    InitMemoryOk(memory, servers, readers);
    RunKeepsMemory(s, es);
    NobodyPastRead(memory, servers, readers);
    RunPrintsOnce(s, es);
    StuckIsGone(t);
    SumAtMostLength(t.readers, PastRead);
  }

  /** There is such a run: without crashes sixty texts are published and every client prints. */
  lemma AllCanBeServed(memory: string, texts: seq<string>, readers: nat) returns (es: seq<Event>)
    requires |memory| == 100 && memory[99] == '\0'
    requires |texts| == 60 && forall i :: 0 <= i < 60 ==> |texts[i]| < 100 && '\0' !in texts[i]
    requires readers <= 32767
    ensures Complete(Init(memory, [texts], readers), es) && ServerLives(es)
    ensures var s := Exec(Init(memory, [texts], readers), es);
            s.finished == 60 && CString(s.memory) == texts[59] && |s.outputs| == readers
  {
    InitMemoryOk(memory, [texts], readers);
    es := CanFinish(Init(memory, [texts], readers));
    ServerPublishesAll(memory, texts, readers, es);
    EveryClientPrints(memory, [texts], readers, es);
  }

  lemma {:induction false} RunPrintsAtMostOnce(s: State, es: seq<Event>)
    requires Legal(s, es)
    ensures var t := Exec(s, es);
            && |t.readers| == |s.readers|
            && |t.outputs| + Sum(s.readers, PastRead) <= |s.outputs| + Sum(t.readers, PastRead)
    decreases es
  {
    if es == [] {
    } else {
      StepPrintsAtMostOnce(s, es[0]);
      RunPrintsAtMostOnce(Next(s, es[0]), es[1..]);
    }
  }

  /** The first k clients hold the lock, the others still wait, nobody has printed. */
  ghost predicate Crowd(s: State, k: nat) {
    && LocksOk(s) && MemoryOk(s)
    && s.vals == Sems(k, 0) && k <= SEMVMX < |s.readers| && s.outputs == []
    && forall r :: k <= r < |s.readers| ==> s.readers[r].pc.Waiting?
  }

  /** The client after 32767 lock holders is refused and never prints. */
  lemma {:induction false} CrowdLosesClient(s: State, k: nat) returns (es: seq<Event>)
    requires Crowd(s, k)
    ensures Complete(s, es) && |Exec(s, es).outputs| < |s.readers|
    decreases SEMVMX - k
  {
    var t := Next(s, RStep(k));
    ReaderLockIs(s.vals, s.readers[k].undo);
    StepKeepsLocks(s, RStep(k));
    StepKeepsMemory(s, RStep(k));
    if k < SEMVMX {
      var rest := CrowdLosesClient(t, k + 1);
      RunCons(s, RStep(k), rest);
      es := [RStep(k)] + rest;
    } else {
      var rest := CanFinish(t);
      SumAtLeast(t.readers, k, PastRead);
      RunPrintsAtMostOnce(t, rest);
      SumAtMostLength(Exec(t, rest).readers, PastRead);
      RunCons(s, RStep(k), rest);
      es := [RStep(k)] + rest;
    }
  }

  /** Every run that lets the clients finish makes all of them print exactly when there are at most 32767. */
  lemma EveryClientPrintsIff(memory: string, servers: seq<seq<string>>, readers: nat)
    requires ValidMemory(memory) && forall w :: 0 <= w < |servers| ==> ValidServer(servers[w])
    ensures var s := Init(memory, servers, readers);
            (forall es :: Complete(s, es) ==> |Exec(s, es).outputs| == readers) <==> readers <= 32767
  {
    var s := Init(memory, servers, readers);
    if readers <= 32767 {
      forall es | Complete(s, es) ensures |Exec(s, es).outputs| == readers {
        EveryClientPrints(memory, servers, readers, es);
      }
    } else {
      InitMemoryOk(memory, servers, readers);
      var es := CrowdLosesClient(s, 0);
    }
  }
}
