/** The semaphores and the undo adjustments, for any number of servers and clients and any crashes. */
module SharedTextLocks {
  import opened Counting
  import opened SharedText

  /** A server between its lock and its release. */
  function WriterHolds(p: Writer): nat {
    if p.pc.Copying? || p.pc.ToUnlock? then 1 else 0
  }

  /** A client between its lock and its release. */
  function ReaderHolds(p: Reader): nat {
    if p.pc.Reading? || p.pc.Printed? then 1 else 0
  }

  /** Sum of the adjustments that the writers (the readers) have for one semaphore. */
  ghost function WriterUndo(ps: seq<Writer>, num: nat): int {
    if ps == [] then 0 else ps[0].undo.Get(num) + WriterUndo(ps[1..], num)
  }

  ghost function ReaderUndo(ps: seq<Reader>, num: nat): int {
    if ps == [] then 0 else ps[0].undo.Get(num) + ReaderUndo(ps[1..], num)
  }

  /** Each semaphore counts the holders on its side, and the sides exclude each other. */
  ghost predicate LocksOk(s: State) {
    && s.vals.s0 == Sum(s.readers, ReaderHolds) <= SEMVMX
    && s.vals.s1 == Sum(s.writers, WriterHolds) <= SEMVMX
    && (s.vals.s0 == 0 || s.vals.s1 == 0)
    && UndoOk(s)
  }

  /** The kernel will undo exactly what each process still holds. */
  ghost predicate UndoOk(s: State) {
    && (forall w :: 0 <= w < |s.writers| ==> s.writers[w].undo == Sems(0, 0 - WriterHolds(s.writers[w])))
    && (forall r :: 0 <= r < |s.readers| ==> s.readers[r].undo == Sems(0 - ReaderHolds(s.readers[r]), 0))
  }

  // ----- What the four semop calls do -----

  lemma WriterLockIs(vals: Sems, undo: Sems)
    requires vals.s1 >= 0
    ensures SemOp(vals, undo, WRITER_LOCK) ==
            if vals.s0 != 0 then Blocks
            else if vals.s1 >= SEMVMX then Fails
            else Done(Sems(vals.s0, vals.s1 + 1), Sems(undo.s0, undo.s1 - 1))
  {
    assert WRITER_LOCK[1..] == [SemBuf(1, 1)];
    assert WRITER_LOCK[1..][1..] == [];
    assert vals.s0 == 0 ==> vals.Add(0, 0) == vals;
    assert undo.Add(0, 0) == undo;
  }

  lemma ReaderLockIs(vals: Sems, undo: Sems)
    requires vals.s0 >= 0
    ensures SemOp(vals, undo, READER_LOCK) ==
            if vals.s1 != 0 then Blocks
            else if vals.s0 >= SEMVMX then Fails
            else Done(Sems(vals.s0 + 1, vals.s1), Sems(undo.s0 - 1, undo.s1))
  {
    assert READER_LOCK[1..] == [SemBuf(0, 1)];
    assert READER_LOCK[1..][1..] == [];
    assert undo.Add(1, 0) == undo;
  }

  lemma WriterUnlockIs(vals: Sems, undo: Sems)
    requires vals.s1 <= SEMVMX
    ensures SemOp(vals, undo, WRITER_UNLOCK) ==
            if vals.s1 <= 0 then Blocks else Done(Sems(vals.s0, vals.s1 - 1), Sems(undo.s0, undo.s1 + 1))
  {
    assert WRITER_UNLOCK[1..] == [];
  }

  lemma ReaderUnlockIs(vals: Sems, undo: Sems)
    requires vals.s0 <= SEMVMX
    ensures SemOp(vals, undo, READER_UNLOCK) ==
            if vals.s0 <= 0 then Blocks else Done(Sems(vals.s0 - 1, vals.s1), Sems(undo.s0 + 1, undo.s1))
  {
    assert READER_UNLOCK[1..] == [];
  }

  // ----- Every step keeps the accounts -----

  lemma InitLocksOk(memory: string, servers: seq<seq<string>>, readers: nat)
    ensures LocksOk(Init(memory, servers, readers))
  {
    var s := Init(memory, servers, readers);
    SumZero(s.readers, ReaderHolds);
    SumZero(s.writers, WriterHolds);
  }

  /** Replacing one process keeps the accounts when its own books are in order. */
  lemma WriterReplaced(s: State, t: State, w: nat, p: Writer)
    requires LocksOk(s) && w < |s.writers| && t.writers == s.writers[w := p] && t.readers == s.readers
    requires t.vals.s0 == s.vals.s0 && t.vals.s1 + WriterHolds(s.writers[w]) == s.vals.s1 + WriterHolds(p)
    requires t.vals.s1 <= SEMVMX && (t.vals.s0 == 0 || t.vals.s1 == 0)
    requires p.undo == Sems(0, 0 - WriterHolds(p))
    ensures LocksOk(t)
  {
    SumUpdate(s.writers, w, p, WriterHolds);
  }

  lemma ReaderReplaced(s: State, t: State, r: nat, p: Reader)
    requires LocksOk(s) && r < |s.readers| && t.readers == s.readers[r := p] && t.writers == s.writers
    requires t.vals.s1 == s.vals.s1 && t.vals.s0 + ReaderHolds(s.readers[r]) == s.vals.s0 + ReaderHolds(p)
    requires t.vals.s0 <= SEMVMX && (t.vals.s0 == 0 || t.vals.s1 == 0)
    requires p.undo == Sems(0 - ReaderHolds(p), 0)
    ensures LocksOk(t)
  {
    SumUpdate(s.readers, r, p, ReaderHolds);
  }

  /** One step of a server, seen from the accounts only. */
  lemma WriterStepAccount(s: State, w: nat)
    requires Enabled(s, WStep(w)) && (s.vals.s0 == 0 || s.vals.s1 == 0) && s.vals.s0 >= 0
    requires WriterHolds(s.writers[w]) <= s.vals.s1 <= SEMVMX && s.writers[w].undo == Sems(0, 0 - WriterHolds(s.writers[w]))
    ensures var t := WriterNext(s, w);
            && t.writers == s.writers[w := t.writers[w]] && t.readers == s.readers
            && t.vals.s0 == s.vals.s0
            && t.vals.s1 + WriterHolds(s.writers[w]) == s.vals.s1 + WriterHolds(t.writers[w])
            && t.vals.s1 <= SEMVMX
            && (t.vals.s0 == 0 || t.vals.s1 == 0)
            && t.writers[w].undo == Sems(0, 0 - WriterHolds(t.writers[w]))
  {
    WriterLockIs(s.vals, s.writers[w].undo);
    WriterUnlockIs(s.vals, s.writers[w].undo);
  }

  lemma WriterStepKeepsLocks(s: State, w: nat)
    requires LocksOk(s) && Enabled(s, WStep(w))
    ensures LocksOk(WriterNext(s, w))
  {
    SumAtLeast(s.writers, w, WriterHolds);
    WriterStepAccount(s, w);
    var t := WriterNext(s, w);
    WriterReplaced(s, t, w, t.writers[w]);
  }

  /** One step of a client, seen from the accounts only. */
  lemma ReaderStepAccount(s: State, r: nat)
    requires Enabled(s, RStep(r)) && (s.vals.s0 == 0 || s.vals.s1 == 0) && s.vals.s1 >= 0
    requires ReaderHolds(s.readers[r]) <= s.vals.s0 <= SEMVMX && s.readers[r].undo == Sems(0 - ReaderHolds(s.readers[r]), 0)
    ensures var t := ReaderNext(s, r);
            && t.readers == s.readers[r := t.readers[r]] && t.writers == s.writers
            && t.vals.s1 == s.vals.s1
            && t.vals.s0 + ReaderHolds(s.readers[r]) == s.vals.s0 + ReaderHolds(t.readers[r])
            && t.vals.s0 <= SEMVMX
            && (t.vals.s0 == 0 || t.vals.s1 == 0)
            && t.readers[r].undo == Sems(0 - ReaderHolds(t.readers[r]), 0)
  {
    ReaderLockIs(s.vals, s.readers[r].undo);
    ReaderUnlockIs(s.vals, s.readers[r].undo);
  }

  lemma ReaderStepKeepsLocks(s: State, r: nat)
    requires LocksOk(s) && Enabled(s, RStep(r))
    ensures LocksOk(ReaderNext(s, r))
  {
    SumAtLeast(s.readers, r, ReaderHolds);
    ReaderStepAccount(s, r);
    var t := ReaderNext(s, r);
    ReaderReplaced(s, t, r, t.readers[r]);
  }

  /** A crash gives back exactly what was held; the cut-off at zero is never used. */
  lemma CrashKeepsLocks(s: State, e: Event)
    requires LocksOk(s) && Enabled(s, e) && (e.WCrash? || e.RCrash?)
    ensures LocksOk(Next(s, e))
    ensures var undo := if e.WCrash? then s.writers[e.w].undo else s.readers[e.r].undo;
            Next(s, e).vals == Sems(s.vals.s0 + undo.s0, s.vals.s1 + undo.s1)
  {
    var t := Next(s, e);
    if e.WCrash? {
      SumUpdate(s.writers, e.w, t.writers[e.w], WriterHolds);
      SumAtLeast(s.writers, e.w, WriterHolds);
    } else {
      SumUpdate(s.readers, e.r, t.readers[e.r], ReaderHolds);
      SumAtLeast(s.readers, e.r, ReaderHolds);
    }
  }

  lemma StepKeepsLocks(s: State, e: Event)
    requires LocksOk(s) && Enabled(s, e)
    ensures LocksOk(Next(s, e))
  {
    match e
    case WStep(w) => WriterStepKeepsLocks(s, w);
    case RStep(r) => ReaderStepKeepsLocks(s, r);
    case WCrash(_) => CrashKeepsLocks(s, e);
    case RCrash(_) => CrashKeepsLocks(s, e);
  }

  lemma {:induction false} WriterUndoIs(ps: seq<Writer>)
    requires forall w :: 0 <= w < |ps| ==> ps[w].undo == Sems(0, 0 - WriterHolds(ps[w]))
    ensures WriterUndo(ps, 0) == 0 && WriterUndo(ps, 1) == 0 - Sum(ps, WriterHolds)
  {
    if ps == [] {
    } else {
      assert forall w :: 0 <= w < |ps[1..]| ==> ps[1..][w] == ps[w + 1];
      WriterUndoIs(ps[1..]);
    }
  }

  lemma {:induction false} ReaderUndoIs(ps: seq<Reader>)
    requires forall r :: 0 <= r < |ps| ==> ps[r].undo == Sems(0 - ReaderHolds(ps[r]), 0)
    ensures ReaderUndo(ps, 0) == 0 - Sum(ps, ReaderHolds) && ReaderUndo(ps, 1) == 0
  {
    if ps == [] {
    } else {
      assert forall r :: 0 <= r < |ps[1..]| ==> ps[1..][r] == ps[r + 1];
      ReaderUndoIs(ps[1..]);
    }
  }

  lemma {:induction false} RunKeepsLocks(s: State, es: seq<Event>)
    requires LocksOk(s) && Legal(s, es)
    ensures LocksOk(Exec(s, es))
    decreases es
  {
    if es == [] {
    } else {
      StepKeepsLocks(s, es[0]);
      RunKeepsLocks(Next(s, es[0]), es[1..]);
    }
  }

  lemma {:induction false} RunKeepsProcesses(s: State, es: seq<Event>)
    requires Legal(s, es)
    ensures |Exec(s, es).writers| == |s.writers| && |Exec(s, es).readers| == |s.readers|
    decreases es
  {
    if es == [] {
    } else {
      RunKeepsProcesses(Next(s, es[0]), es[1..]);
    }
  }

  /** Both semaphores count their holders, never both positive, and every value is balanced by the undos. */
  lemma SemaphoreAccounts(memory: string, servers: seq<seq<string>>, readers: nat, es: seq<Event>)
    requires Legal(Init(memory, servers, readers), es)
    ensures var s := Exec(Init(memory, servers, readers), es);
            && |s.writers| == |servers| && |s.readers| == readers
            && s.vals.s0 == Sum(s.readers, ReaderHolds)
            && s.vals.s1 == Sum(s.writers, WriterHolds)
            && !(s.vals.s0 > 0 && s.vals.s1 > 0)
            && s.vals.s0 + WriterUndo(s.writers, 0) + ReaderUndo(s.readers, 0) == 0
            && s.vals.s1 + WriterUndo(s.writers, 1) + ReaderUndo(s.readers, 1) == 0
  {
    InitLocksOk(memory, servers, readers);
    RunKeepsLocks(Init(memory, servers, readers), es);
    RunKeepsProcesses(Init(memory, servers, readers), es);
    var s := Exec(Init(memory, servers, readers), es);
    WriterUndoIs(s.writers);
    ReaderUndoIs(s.readers);
  }
}
