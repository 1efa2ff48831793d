/**
The shared string of ShmTServ/shm_tserv.c and ShmTClnt/shm_tclnt.c, guarded by a System V semaphore set.

Semaphore 0 counts readers and semaphore 1 counts writers. A lock is one semop of two operations: wait
until the other semaphore is zero and add one to one's own. Every operation carries SEM_UNDO, so the
kernel keeps adjustments per process and applies them when the process exits or crashes. Copying and
reading go byte by byte, with any other process moving in between.
*/
module SharedText {
  import opened CStrings

  const SEGMENT: nat := 100
  const SEMVMX: nat := 32767
  const ROUNDS: nat := 60

  // ----- The kernel -----

  datatype Sems = Sems(s0: int, s1: int) {
    function Get(num: nat): int {
      if num == 0 then s0 else s1
    }

    function Add(num: nat, op: int): Sems {
      if num == 0 then this.(s0 := s0 + op) else this.(s1 := s1 + op)
    }
  }

  const ZERO := Sems(0, 0)

  datatype SemBuf = SemBuf(num: nat, op: int)

  datatype SemResult = Blocks | Fails | Done(vals: Sems, undo: Sems)

  /** semop: all operations or none; each performed operation is subtracted from the adjustment. */
  function SemOp(vals: Sems, undo: Sems, actions: seq<SemBuf>): SemResult
    decreases actions
  {
    if actions == [] then Done(vals, undo)
    else
      var a := actions[0];
      if a.op == 0 && vals.Get(a.num) != 0 then Blocks
      else if vals.Get(a.num) + a.op < 0 then Blocks
      else if vals.Get(a.num) + a.op > SEMVMX then Fails
      else SemOp(vals.Add(a.num, a.op), undo.Add(a.num, -a.op), actions[1..])
  }

  function AtLeastZero(v: int): int {
    if v < 0 then 0 else v
  }

  /** Process exit: the adjustments are added; a value does not go below zero. */
  function ApplyUndo(vals: Sems, undo: Sems): Sems {
    Sems(AtLeastZero(vals.s0 + undo.s0), AtLeastZero(vals.s1 + undo.s1))
  }

  const WRITER_LOCK := [SemBuf(0, 0), SemBuf(1, 1)]
  const WRITER_UNLOCK := [SemBuf(1, -1)]
  const READER_LOCK := [SemBuf(1, 0), SemBuf(0, 1)]
  const READER_UNLOCK := [SemBuf(0, -1)]

  // ----- The processes -----

  /** `before` is the memory when the lock was taken: a record, never read by the program. */
  datatype WriterPc = ToLock(round: nat) | Copying(round: nat, k: nat, before: string) | ToUnlock(round: nat) | ToExit | Gone

  datatype ReaderPc = Waiting | Reading(acc: string, snapshot: string, finished: nat) | Printed | Leaving | Left

  datatype Writer = Writer(pc: WriterPc, undo: Sems, texts: seq<string>)

  datatype Reader = Reader(pc: ReaderPc, undo: Sems)

  /** A completed read: what was printed, the memory and the number of finished copies at its lock. */
  datatype Read = Read(text: string, snapshot: string, finished: nat)

  datatype State = State(
    vals: Sems,
    memory: string,
    writers: seq<Writer>,
    readers: seq<Reader>,
    finished: nat,       // copies completed
    outputs: seq<Read>)

  datatype Event = WStep(w: nat) | RStep(r: nat) | WCrash(w: nat) | RCrash(r: nat)

  /** A text as ctime delivers it: no NUL inside, and it fits the segment with its NUL. */
  predicate ValidText(text: string) {
    |text| < SEGMENT && NUL !in text
  }

  predicate ValidServer(texts: seq<string>) {
    |texts| == ROUNDS && forall i :: 0 <= i < |texts| ==> ValidText(texts[i])
  }

  /** The last byte is zero: a new segment is filled with zeros, and no text reaches beyond its NUL there. */
  predicate ValidMemory(memory: string) {
    |memory| == SEGMENT && memory[SEGMENT - 1] == NUL
  }

  function NewWriter(texts: seq<string>): Writer {
    Writer(ToLock(0), ZERO, texts)
  }

  function Init(memory: string, servers: seq<seq<string>>, readers: nat): State {
    State(ZERO, memory, seq(|servers|, i requires 0 <= i < |servers| => NewWriter(servers[i])),
          seq(readers, _ => Reader(Waiting, ZERO)), 0, [])
  }

  predicate Enabled(s: State, e: Event) {
    match e
    case WStep(w) =>
      w < |s.writers| &&
      var p := s.writers[w];
      match p.pc {
        case ToLock(i) => i < |p.texts| && !SemOp(s.vals, p.undo, WRITER_LOCK).Blocks?
        case Copying(i, k, _) => i < |p.texts| && k <= |p.texts[i]| && k < |s.memory|
        case ToUnlock(_) => !SemOp(s.vals, p.undo, WRITER_UNLOCK).Blocks?
        case ToExit => true
        case Gone => false
      }
    case RStep(r) =>
      r < |s.readers| &&
      var p := s.readers[r];
      match p.pc {
        case Waiting => !SemOp(s.vals, p.undo, READER_LOCK).Blocks?
        case Reading(acc, _, _) => |acc| < |s.memory|
        case Printed => !SemOp(s.vals, p.undo, READER_UNLOCK).Blocks?
        case Leaving => true
        case Left => false
      }
    case WCrash(w) => w < |s.writers| && !s.writers[w].pc.Gone?
    case RCrash(r) => r < |s.readers| && !s.readers[r].pc.Left?
  }

  function SetWriter(s: State, w: nat, vals: Sems, undo: Sems, pc: WriterPc): State
    requires w < |s.writers|
  {
    s.(vals := vals, writers := s.writers[w := s.writers[w].(pc := pc, undo := undo)])
  }

  function SetReader(s: State, r: nat, vals: Sems, undo: Sems, pc: ReaderPc): State
    requires r < |s.readers|
  {
    s.(vals := vals, readers := s.readers[r := Reader(pc, undo)])
  }

  function ExitWriter(s: State, w: nat): State
    requires w < |s.writers|
  {
    SetWriter(s, w, ApplyUndo(s.vals, s.writers[w].undo), ZERO, Gone)
  }

  function ExitReader(s: State, r: nat): State
    requires r < |s.readers|
  {
    SetReader(s, r, ApplyUndo(s.vals, s.readers[r].undo), ZERO, Left)
  }

  function WriterNext(s: State, w: nat): State
    requires Enabled(s, WStep(w))
  {
    var p := s.writers[w];
    match p.pc
    case ToLock(i) =>
      var op := SemOp(s.vals, p.undo, WRITER_LOCK);
      if op.Fails? then ExitWriter(s, w) else SetWriter(s, w, op.vals, op.undo, Copying(i, 0, s.memory))
    case Copying(i, k, before) =>
      if k < |p.texts[i]| then
        SetWriter(s, w, s.vals, p.undo, Copying(i, k + 1, before)).(memory := s.memory[k := p.texts[i][k]])
      else
        SetWriter(s, w, s.vals, p.undo, ToUnlock(i)).(memory := s.memory[k := NUL], finished := s.finished + 1)
    case ToUnlock(i) =>
      var op := SemOp(s.vals, p.undo, WRITER_UNLOCK);
      if op.Fails? then ExitWriter(s, w)
      else SetWriter(s, w, op.vals, op.undo, if i + 1 < |p.texts| then ToLock(i + 1) else ToExit)
    case ToExit => ExitWriter(s, w)
  }

  function ReaderNext(s: State, r: nat): State
    requires Enabled(s, RStep(r))
  {
    var p := s.readers[r];
    match p.pc
    case Waiting =>
      var op := SemOp(s.vals, p.undo, READER_LOCK);
      if op.Fails? then ExitReader(s, r) else SetReader(s, r, op.vals, op.undo, Reading("", s.memory, s.finished))
    case Reading(acc, snapshot, finished) =>
      var c := s.memory[|acc|];
      if c != NUL then SetReader(s, r, s.vals, p.undo, Reading(acc + [c], snapshot, finished))
      else SetReader(s, r, s.vals, p.undo, Printed).(outputs := s.outputs + [Read(acc, snapshot, finished)])
    case Printed =>
      var op := SemOp(s.vals, p.undo, READER_UNLOCK);
      if op.Fails? then ExitReader(s, r) else SetReader(s, r, op.vals, op.undo, Leaving)
    case Leaving => ExitReader(s, r)
  }

  function Next(s: State, e: Event): State
    requires Enabled(s, e)
  {
    match e
    case WStep(w) => WriterNext(s, w)
    case RStep(r) => ReaderNext(s, r)
    case WCrash(w) => ExitWriter(s, w)
    case RCrash(r) => ExitReader(s, r)
  }

  predicate Legal(s: State, es: seq<Event>)
    decreases es
  {
    es == [] || (Enabled(s, es[0]) && Legal(Next(s, es[0]), es[1..]))
  }

  function Exec(s: State, es: seq<Event>): State
    requires Legal(s, es)
    decreases es
  {
    if es == [] then s else Exec(Next(s, es[0]), es[1..])
  }

  /** The machine: the semaphore set, the segment and the attached processes, updated in place. */
  class Machine {
    var vals: Sems
    const segment: array<char>
    var writers: seq<Writer>
    var readers: seq<Reader>
    var finished: nat
    var outputs: seq<Read>

    ghost function Contents(): State
      reads this, segment
    {
      State(vals, segment[..], writers, readers, finished, outputs)
    }

    constructor (segment: array<char>, servers: seq<seq<string>>, readers: nat)
      ensures this.segment == segment && Contents() == Init(segment[..], servers, readers)
    {
      this.segment := segment;
      this.vals, this.finished, this.outputs := ZERO, 0, [];
      this.writers := seq(|servers|, i requires 0 <= i < |servers| => NewWriter(servers[i]));
      this.readers := seq(readers, _ => Reader(Waiting, ZERO));
    }

    method CrashWriter(w: nat)
      requires w < |writers|
      modifies this
      ensures Contents() == ExitWriter(old(Contents()), w)
    {
      vals := ApplyUndo(vals, writers[w].undo);
      writers := writers[w := writers[w].(pc := Gone, undo := ZERO)];
    }

    method CrashReader(r: nat)
      requires r < |readers|
      modifies this
      ensures Contents() == ExitReader(old(Contents()), r)
    {
      vals := ApplyUndo(vals, readers[r].undo);
      readers := readers[r := Reader(Left, ZERO)];
    }

    /** semop with the caller's adjustments: changes nothing unless every operation succeeds. */
    method SemOpWriter(w: nat, actions: seq<SemBuf>) returns (ok: bool)
      requires w < |writers| && !SemOp(vals, writers[w].undo, actions).Blocks?
      modifies this
      ensures var op := SemOp(old(vals), old(writers)[w].undo, actions);
              && ok == op.Done?
              && Contents() == if ok then SetWriter(old(Contents()), w, op.vals, op.undo, old(writers)[w].pc)
                               else old(Contents())
    {
      var op := SemOp(vals, writers[w].undo, actions);
      ok := op.Done?;
      if ok {
        vals := op.vals;
        writers := writers[w := writers[w].(undo := op.undo)];
      }
    }

    method SemOpReader(r: nat, actions: seq<SemBuf>) returns (ok: bool)
      requires r < |readers| && !SemOp(vals, readers[r].undo, actions).Blocks?
      modifies this
      ensures var op := SemOp(old(vals), old(readers)[r].undo, actions);
              && ok == op.Done?
              && Contents() == if ok then SetReader(old(Contents()), r, op.vals, op.undo, old(readers)[r].pc)
                               else old(Contents())
    {
      var op := SemOp(vals, readers[r].undo, actions);
      ok := op.Done?;
      if ok {
        vals := op.vals;
        readers := readers[r := readers[r].(undo := op.undo)];
      }
    }

    /** One step of the server: lock, one byte of strcpy, unlock or exit. */
    method ServerStep(w: nat)
      requires Enabled(Contents(), WStep(w))
      modifies this, segment
      ensures Contents() == Next(old(Contents()), WStep(w))
    {
      var p := writers[w];
      match p.pc {
        case ToLock(i) =>
          var ok := SemOpWriter(w, WRITER_LOCK);
          if ok {
            writers := writers[w := writers[w].(pc := Copying(i, 0, segment[..]))];
          } else {
            CrashWriter(w);
          }
        case Copying(i, k, before) =>
          if k < |p.texts[i]| {
            segment[k] := p.texts[i][k];
            writers := writers[w := p.(pc := Copying(i, k + 1, before))];
          } else {
            segment[k] := NUL;
            finished := finished + 1;
            writers := writers[w := p.(pc := ToUnlock(i))];
          }
        case ToUnlock(i) =>
          var ok := SemOpWriter(w, WRITER_UNLOCK);
          if ok {
            writers := writers[w := writers[w].(pc := if i + 1 < |p.texts| then ToLock(i + 1) else ToExit)];
          } else {
            CrashWriter(w);
          }
        case ToExit =>
          CrashWriter(w);
      }
    }

    /** One step of a client: lock, one byte of the string, unlock or exit. */
    method ClientStep(r: nat)
      requires Enabled(Contents(), RStep(r))
      modifies this
      ensures Contents() == Next(old(Contents()), RStep(r))
    {
      var p := readers[r];
      match p.pc {
        case Waiting =>
          var ok := SemOpReader(r, READER_LOCK);
          if ok {
            readers := readers[r := readers[r].(pc := Reading("", segment[..], finished))];
          } else {
            CrashReader(r);
          }
        case Reading(acc, snapshot, count) =>
          var c := segment[|acc|];
          if c != NUL {
            readers := readers[r := p.(pc := Reading(acc + [c], snapshot, count))];
          } else {
            outputs := outputs + [Read(acc, snapshot, count)];
            readers := readers[r := p.(pc := Printed)];
          }
        case Printed =>
          var ok := SemOpReader(r, READER_UNLOCK);
          if ok {
            readers := readers[r := readers[r].(pc := Leaving)];
          } else {
            CrashReader(r);
          }
        case Leaving =>
          CrashReader(r);
      }
    }
  }
}
