/** What the clients read: never a mixture, unless the server dies in the middle of a copy. */
module SharedTextReads {
  import opened CStrings
  import opened Counting
  import opened SharedText
  import opened SharedTextLocks

  // ----- A read returns the memory as it was at the lock, whatever crashes -----

  ghost predicate WritersOk(s: State) {
    forall w :: 0 <= w < |s.writers| ==>
      var p := s.writers[w];
      && (forall i :: 0 <= i < |p.texts| ==> ValidText(p.texts[i]))
      && (p.pc.ToLock? || p.pc.Copying? || p.pc.ToUnlock? ==> p.pc.round < |p.texts|)
      && (p.pc.Copying? ==> p.pc.k <= |p.texts[p.pc.round]|)
  }

  ghost predicate ReadersOk(s: State) {
    forall r :: 0 <= r < |s.readers| && s.readers[r].pc.Reading? ==>
      var pc := s.readers[r].pc;
      && pc.snapshot == s.memory
      && |pc.acc| < SEGMENT == |s.memory| && pc.acc == s.memory[..|pc.acc|] && NUL !in pc.acc
  }

  ghost predicate OutputsOk(s: State) {
    forall j :: 0 <= j < |s.outputs| ==> s.outputs[j].text == CString(s.outputs[j].snapshot)
  }

  ghost predicate MemoryOk(s: State) {
    ValidMemory(s.memory) && WritersOk(s) && ReadersOk(s) && OutputsOk(s)
  }

  /** While a server holds its lock, no client is reading. */
  lemma NoReaderBesideWriter(s: State, w: nat)
    requires LocksOk(s) && w < |s.writers| && WriterHolds(s.writers[w]) == 1
    ensures forall r :: 0 <= r < |s.readers| ==> !s.readers[r].pc.Reading?
  {
    SumAtLeast(s.writers, w, WriterHolds);
    forall r | 0 <= r < |s.readers| ensures !s.readers[r].pc.Reading? {
      SumAtLeast(s.readers, r, ReaderHolds);
    }
  }

  lemma CopyKeepsMemory(s: State, w: nat)
    requires LocksOk(s) && MemoryOk(s) && Enabled(s, WStep(w)) && s.writers[w].pc.Copying?
    ensures MemoryOk(WriterNext(s, w))
  {
    var t := WriterNext(s, w);
    NoReaderBesideWriter(s, w);
    assert t.readers == s.readers && t.outputs == s.outputs;
    assert forall v :: 0 <= v < |t.writers| && v != w ==> t.writers[v] == s.writers[v];
  }

  lemma WriterStepKeepsMemory(s: State, w: nat)
    requires LocksOk(s) && MemoryOk(s) && Enabled(s, WStep(w))
    ensures MemoryOk(WriterNext(s, w))
  {
    var p, t := s.writers[w], WriterNext(s, w);
    if p.pc.Copying? {
      CopyKeepsMemory(s, w);
    } else {
      assert t.memory == s.memory && t.readers == s.readers && t.outputs == s.outputs;
      assert forall v :: 0 <= v < |t.writers| && v != w ==> t.writers[v] == s.writers[v];
    }
  }

  lemma ReadKeepsMemory(s: State, r: nat)
    requires MemoryOk(s) && Enabled(s, RStep(r)) && s.readers[r].pc.Reading?
    ensures MemoryOk(ReaderNext(s, r))
  {
    var pc, t := s.readers[r].pc, ReaderNext(s, r);
    assert forall q :: 0 <= q < |t.readers| && q != r ==> t.readers[q] == s.readers[q];
    if s.memory[|pc.acc|] == NUL {
      CStringIs(s.memory, |pc.acc|);
    } else {
      assert s.memory[..|pc.acc| + 1] == pc.acc + [s.memory[|pc.acc|]];
    }
  }

  lemma ReaderStepKeepsMemory(s: State, r: nat)
    requires MemoryOk(s) && Enabled(s, RStep(r))
    ensures MemoryOk(ReaderNext(s, r))
  {
    if s.readers[r].pc.Reading? {
      ReadKeepsMemory(s, r);
    } else {
      var t := ReaderNext(s, r);
      assert t.memory == s.memory && t.outputs == s.outputs && t.writers == s.writers;
      assert forall q :: 0 <= q < |t.readers| && q != r ==> t.readers[q] == s.readers[q];
    }
  }

  lemma StepKeepsMemory(s: State, e: Event)
    requires LocksOk(s) && MemoryOk(s) && Enabled(s, e)
    ensures MemoryOk(Next(s, e))
  {
    match e
    case WStep(w) => WriterStepKeepsMemory(s, w);
    case RStep(r) => ReaderStepKeepsMemory(s, r);
    case WCrash(_) =>
    case RCrash(_) =>
  }

  lemma {:induction false} RunKeepsMemory(s: State, es: seq<Event>)
    requires LocksOk(s) && MemoryOk(s) && Legal(s, es)
    ensures LocksOk(Exec(s, es)) && MemoryOk(Exec(s, es))
    decreases es
  {
    if es == [] {
    } else {
      StepKeepsLocks(s, es[0]);
      StepKeepsMemory(s, es[0]);
      RunKeepsMemory(Next(s, es[0]), es[1..]);
    }
  }

  lemma InitMemoryOk(memory: string, servers: seq<seq<string>>, readers: nat)
    requires ValidMemory(memory) && forall w :: 0 <= w < |servers| ==> ValidServer(servers[w])
    ensures LocksOk(Init(memory, servers, readers)) && MemoryOk(Init(memory, servers, readers))
  {
    InitLocksOk(memory, servers, readers);
  }

  /** Any number of servers, any crashes: every completed read is the string that was there at its lock. */
  lemma ReadsAreSnapshots(memory: string, servers: seq<seq<string>>, readers: nat, es: seq<Event>)
    requires ValidMemory(memory) && forall w :: 0 <= w < |servers| ==> ValidServer(servers[w])
    requires Legal(Init(memory, servers, readers), es)
    ensures var s := Exec(Init(memory, servers, readers), es);
            forall j :: 0 <= j < |s.outputs| ==> s.outputs[j].text == CString(s.outputs[j].snapshot)
  {
    InitMemoryOk(memory, servers, readers);
    RunKeepsMemory(Init(memory, servers, readers), es);
  }

  // ----- One server: the snapshot is a whole text -----

  /** What a client should see after n finished copies. */
  function Published(first: string, texts: seq<string>, n: nat): string
    requires n <= |texts|
  {
    if n == 0 then first else texts[n - 1]
  }

  ghost predicate IsPublished(first: string, texts: seq<string>, m: string, n: nat) {
    n <= |texts| && CString(m) == Published(first, texts, n)
  }

  ghost predicate WriterWhole(s: State, first: string) {
    && |s.writers| == 1
    && var p := s.writers[0];
       match p.pc {
         case ToLock(i) => s.finished == i && IsPublished(first, p.texts, s.memory, s.finished)
         case Copying(i, k, before) =>
           && s.finished == i < |p.texts| && |before| == SEGMENT && k <= |p.texts[i]| < SEGMENT
           && IsPublished(first, p.texts, before, i) && s.memory == p.texts[i][..k] + before[k..]
         case ToUnlock(i) => s.finished == i + 1 && IsPublished(first, p.texts, s.memory, s.finished)
         case ToExit => IsPublished(first, p.texts, s.memory, s.finished)
         case Gone => IsPublished(first, p.texts, s.memory, s.finished)
       }
  }

  ghost predicate ReadsWhole(s: State, first: string) {
    && |s.writers| == 1
    && var texts := s.writers[0].texts;
       && (forall r :: 0 <= r < |s.readers| && s.readers[r].pc.Reading? ==>
             IsPublished(first, texts, s.readers[r].pc.snapshot, s.readers[r].pc.finished))
       && (forall j :: 0 <= j < |s.outputs| ==>
             IsPublished(first, texts, s.outputs[j].snapshot, s.outputs[j].finished))
  }

  /** A server dying after the first and before the last byte of a copy. */
  predicate Tears(s: State, e: Event) {
    e.WCrash? && e.w < |s.writers| && s.writers[e.w].pc.Copying? && s.writers[e.w].pc.k > 0
  }

  lemma CopyDone(text: string, before: string)
    requires |text| < |before| && NUL !in text
    ensures CString((text + before[|text|..])[|text| := NUL]) == text
  {
    var m := (text + before[|text|..])[|text| := NUL];
    assert m[..|text|] == text;
    CStringIs(m, |text|);
  }

  lemma CopyKeepsWhole(s: State, first: string)
    requires MemoryOk(s) && WriterWhole(s, first) && Enabled(s, WStep(0)) && s.writers[0].pc.Copying?
    ensures WriterWhole(WriterNext(s, 0), first)
  {
    var p := s.writers[0];
    var text, k, before := p.texts[p.pc.round], p.pc.k, p.pc.before;
    if k < |text| {
      assert (text[..k] + before[k..])[k := text[k]] == text[..k + 1] + before[k + 1..];
    } else {
      assert text[..k] == text;
      CopyDone(text, before);
    }
  }

  lemma WriterStepKeepsWhole(s: State, first: string)
    requires LocksOk(s) && MemoryOk(s) && WriterWhole(s, first) && Enabled(s, WStep(0))
    ensures WriterWhole(WriterNext(s, 0), first)
  {
    var p := s.writers[0];
    if p.pc.Copying? {
      CopyKeepsWhole(s, first);
    } else {
      assert WriterNext(s, 0).memory == s.memory && WriterNext(s, 0).finished == s.finished;
      if p.pc.ToLock? {
        assert s.memory == p.texts[p.pc.round][..0] + s.memory[0..];
      }
    }
  }

  lemma StepKeepsWriterWhole(s: State, first: string, e: Event)
    requires LocksOk(s) && MemoryOk(s) && WriterWhole(s, first) && Enabled(s, e) && !Tears(s, e)
    ensures WriterWhole(Next(s, e), first)
  {
    match e
    case WStep(w) => WriterStepKeepsWhole(s, first);
    case WCrash(w) =>
      var p := s.writers[0];
      if p.pc.Copying? {
        assert p.texts[p.pc.round][..0] + p.pc.before[0..] == p.pc.before;
      }
    case RStep(_) =>
    case RCrash(_) =>
  }

  /** A client can lock only while the server is not copying. */
  lemma ReaderLocksWhole(s: State, first: string, r: nat)
    requires LocksOk(s) && WriterWhole(s, first) && r < |s.readers|
    requires SemOp(s.vals, s.readers[r].undo, READER_LOCK).Done?
    ensures IsPublished(first, s.writers[0].texts, s.memory, s.finished)
  {
    ReaderLockIs(s.vals, s.readers[r].undo);
    SumAtLeast(s.writers, 0, WriterHolds);
  }

  lemma StepKeepsReadsWhole(s: State, first: string, e: Event)
    requires LocksOk(s) && WriterWhole(s, first) && ReadsWhole(s, first) && Enabled(s, e)
    ensures ReadsWhole(Next(s, e), first)
  {
    var t := Next(s, e);
    assert |t.writers| == 1 && t.writers[0].texts == s.writers[0].texts;
    if e.RStep? {
      assert forall q :: 0 <= q < |t.readers| && q != e.r ==> t.readers[q] == s.readers[q];
      if s.readers[e.r].pc.Waiting? && t.readers[e.r].pc.Reading? {
        ReaderLocksWhole(s, first, e.r);
      }
    } else if e.RCrash? {
      assert forall q :: 0 <= q < |t.readers| && q != e.r ==> t.readers[q] == s.readers[q];
    } else {
      assert t.readers == s.readers && t.outputs == s.outputs;
    }
  }

  predicate Untorn(s: State, es: seq<Event>)
    requires Legal(s, es)
    decreases es
  {
    es == [] || (!Tears(s, es[0]) && Untorn(Next(s, es[0]), es[1..]))
  }

  ghost predicate Sound(s: State, first: string) {
    LocksOk(s) && MemoryOk(s) && WriterWhole(s, first) && ReadsWhole(s, first)
  }

  lemma {:induction false} RunKeepsWhole(s: State, first: string, es: seq<Event>)
    requires Sound(s, first) && Legal(s, es) && Untorn(s, es)
    ensures Sound(Exec(s, es), first) && Exec(s, es).writers[0].texts == s.writers[0].texts
    decreases es
  {
    if es == [] {
    } else {
      StepKeepsLocks(s, es[0]);
      StepKeepsMemory(s, es[0]);
      StepKeepsWriterWhole(s, first, es[0]);
      StepKeepsReadsWhole(s, first, es[0]);
      RunKeepsWhole(Next(s, es[0]), first, es[1..]);
    }
  }

  lemma InitSound(memory: string, texts: seq<string>, readers: nat)
    requires ValidMemory(memory) && ValidServer(texts)
    ensures Sound(Init(memory, [texts], readers), CString(memory))
  {
    InitMemoryOk(memory, [texts], readers);
  }

  /** Every completed read is exactly the text of the last copy finished before its lock. */
  lemma ReadsAreWholeTexts(memory: string, texts: seq<string>, readers: nat, es: seq<Event>)
    requires ValidMemory(memory) && ValidServer(texts)
    requires Legal(Init(memory, [texts], readers), es) && Untorn(Init(memory, [texts], readers), es)
    ensures var s := Exec(Init(memory, [texts], readers), es);
            forall j :: 0 <= j < |s.outputs| ==>
              && s.outputs[j].finished <= ROUNDS
              && s.outputs[j].text == Published(CString(memory), texts, s.outputs[j].finished)
  {
    InitSound(memory, texts, readers);
    RunKeepsWhole(Init(memory, [texts], readers), CString(memory), es);
  }

  // ----- The server dies in the middle of a copy -----

  /** All servers are gone and everybody who reads, or has read since, sees m. */
  ghost predicate Frozen(s: State, m: string, n: nat) {
    && (forall w :: 0 <= w < |s.writers| ==> s.writers[w].pc.Gone?)
    && s.memory == m && n <= |s.outputs|
    && (forall j :: n <= j < |s.outputs| ==> s.outputs[j].snapshot == m)
  }

  lemma {:induction false} StaysFrozen(s: State, m: string, n: nat, es: seq<Event>)
    requires LocksOk(s) && MemoryOk(s) && Frozen(s, m, n) && Legal(s, es)
    ensures Frozen(Exec(s, es), m, n) && OutputsOk(Exec(s, es))
    decreases es
  {
    if es == [] {
    } else {
      StepKeepsLocks(s, es[0]);
      StepKeepsMemory(s, es[0]);
      StaysFrozen(Next(s, es[0]), m, n, es[1..]);
    }
  }

  /**
  After the only server dies with k bytes of a copy written, every later read is those k bytes followed
  by what the old memory holds after them.
  */
  lemma ReadsAfterTear(s: State, first: string, es: seq<Event>)
    requires Sound(s, first) && s.writers[0].pc.Copying? && Legal(ExitWriter(s, 0), es)
    ensures var p := s.writers[0];
            var text, k, before, t := p.texts[p.pc.round], p.pc.k, p.pc.before, Exec(ExitWriter(s, 0), es);
            && CString(before) == Published(first, p.texts, s.finished)
            && |s.outputs| <= |t.outputs|
            && forall j :: |s.outputs| <= j < |t.outputs| ==> t.outputs[j].text == text[..k] + CString(before[k..])
  {
    var p := s.writers[0];
    assert ExitWriter(s, 0) == Next(s, WCrash(0)) && Enabled(s, WCrash(0));
    StepKeepsLocks(s, WCrash(0));
    StepKeepsMemory(s, WCrash(0));
    StaysFrozen(ExitWriter(s, 0), s.memory, |s.outputs|, es);
    CStringOfOverlay(p.texts[p.pc.round], p.pc.k, p.pc.before);
  }

  /** Two strings are equal exactly when they agree before and after k. */
  lemma EqualInParts(a: string, b: string, k: nat)
    requires k <= |a|
    ensures a == b <==> k <= |b| && a[..k] == b[..k] && a[k..] == b[k..]
  {
    if k <= |b| && a[..k] == b[..k] && a[k..] == b[k..] {
      assert a == a[..k] + a[k..] && b == b[..k] + b[k..];
    }
  }

  /** When such a read is still the old text, and when it is the new one. */
  lemma TornReadIsWholeIff(text: string, before: string, k: nat)
    requires k <= |text| && k <= |before|
    ensures var torn, was := text[..k] + CString(before[k..]), CString(before);
            && (torn == was <==> k <= |was| && text[..k] == was[..k])
            && (torn == text <==> CString(before[k..]) == text[k..])
  {
    var torn, was := text[..k] + CString(before[k..]), CString(before);
    assert torn[..k] == text[..k] && torn[k..] == CString(before[k..]);
    EqualInParts(torn, was, k);
    EqualInParts(torn, text, k);
    if k <= |was| {
      CStringTail(before, k);
    }
  }

  /** One byte of "cd" over "ab" gives "cb", which is neither. */
  lemma TornReadIsNeither(before: string)
    requires CString(before) == "ab"
    ensures "cd"[..1] + CString(before[1..]) == "cb"
    ensures "cb" != "ab" && "cb" != "cd"
  {
    CStringTail(before, 1);
    assert "ab"[1..] == "b" && "cd"[..1] == "c" && "cb" == "c" + "b";
    assert "cb"[0] != "ab"[0] && "cb"[1] != "cd"[1];
  }

  /** A client that holds its lock reaches the end of the string and prints it. */
  lemma {:induction false} ReadFinishes(s: State, r: nat) returns (es: seq<Event>)
    requires LocksOk(s) && MemoryOk(s) && r < |s.readers| && s.readers[r].pc.Reading?
    ensures Legal(s, es)
    ensures Exec(s, es).outputs == s.outputs + [Read(CString(s.memory), s.memory, s.readers[r].pc.finished)]
    decreases SEGMENT - |s.readers[r].pc.acc|
  {
    var t := Next(s, RStep(r));
    StepKeepsLocks(s, RStep(r));
    StepKeepsMemory(s, RStep(r));
    if t.readers[r].pc.Printed? {
      CStringIs(s.memory, |s.readers[r].pc.acc|);
      es := [RStep(r)];
      assert Exec(t, []) == t;
    } else {
      var rest := ReadFinishes(t, r);
      es := [RStep(r)] + rest;
      assert es[1..] == rest;
    }
  }

  /** The mixture is not hypothetical: a waiting client can lock after the crash and print it. */
  lemma TearIsVisible(s: State, first: string, r: nat) returns (es: seq<Event>)
    requires Sound(s, first) && s.writers[0].pc.Copying? && r < |s.readers| && s.readers[r].pc.Waiting?
    ensures var p := s.writers[0];
            && Legal(s, [WCrash(0)] + es)
            && var t := Exec(s, [WCrash(0)] + es);
               |t.outputs| == |s.outputs| + 1
               && t.outputs[|s.outputs|].text == p.texts[p.pc.round][..p.pc.k] + CString(p.pc.before[p.pc.k..])
  {
    var p, u := s.writers[0], Next(s, WCrash(0));
    StepKeepsLocks(s, WCrash(0));
    StepKeepsMemory(s, WCrash(0));
    SumAtLeast(s.writers, 0, WriterHolds);
    CrashKeepsLocks(s, WCrash(0));
    ReaderLockIs(u.vals, u.readers[r].undo);
    var v := Next(u, RStep(r));
    StepKeepsLocks(u, RStep(r));
    StepKeepsMemory(u, RStep(r));
    var rest := ReadFinishes(v, r);
    es := [RStep(r)] + rest;
    assert es[1..] == rest && ([WCrash(0)] + es)[1..] == es;
    CStringOfOverlay(p.texts[p.pc.round], p.pc.k, p.pc.before);
  }

  /** Two steps into every run of the server it is in the middle of a copy. */
  lemma MidCopyIsReachable(memory: string, texts: seq<string>, readers: nat)
    requires ValidMemory(memory) && ValidServer(texts) && texts[0] != []
    ensures var s, es := Init(memory, [texts], readers), [WStep(0), WStep(0)];
            && Legal(s, es) && Sound(Exec(s, es), CString(memory))
            && Exec(s, es).writers[0].pc == Copying(0, 1, memory)
  {
    var s := Init(memory, [texts], readers);
    WriterLockIs(ZERO, ZERO);
    var s1 := Next(s, WStep(0));
    var s2 := Next(s1, WStep(0));
    assert [WStep(0), WStep(0)][1..] == [WStep(0)] && [WStep(0)][1..] == [];
    assert Legal(s1, [WStep(0)]) && Exec(s1, [WStep(0)]) == s2 && Untorn(s1, [WStep(0)]);
    InitSound(memory, texts, readers);
    RunKeepsWhole(s, CString(memory), [WStep(0), WStep(0)]);
  }
}
