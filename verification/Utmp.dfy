/**
The login records of MyWho/utmplib.c: a reader with a cache of sixteen records, and the in-place update
that marks a terminal as logged out.

The file is a sequence of whole records, possibly followed by a fragment shorter than a record.
*/
module Utmp {
  import opened Options

  const NRECS: nat := 16
  const UTSIZE: nat := 384
  const LINE_SIZE: nat := 32
  const INIT_PROCESS: int := 5
  const USER_PROCESS: int := 7
  const DEAD_PROCESS: int := 8

  datatype Record = Record(utType: int, line: string, tvSec: int, user: string, host: string)

  /** isAll of utmp_next: 0 for the users, 1 for every record. */
  datatype Mode = UsersOnly | Everything

  // ----- What the reader should deliver -----

  predicate IsUser(r: Record) {
    r.utType == USER_PROCESS
  }

  /** The last record of a block of sixteen, or of the file. */
  predicate EndsBlock(records: seq<Record>, i: nat) {
    i % NRECS == NRECS - 1 || i + 1 == |records|
  }

  predicate Delivered(records: seq<Record>, mode: Mode, i: nat)
    requires i < |records|
  {
    mode.Everything? || IsUser(records[i]) || EndsBlock(records, i)
  }

  /** The first record from p on that is delivered, or the end of the file. */
  function NextIndex(records: seq<Record>, mode: Mode, p: nat): (q: nat)
    requires p <= |records|
    ensures p <= q <= |records| && (q < |records| ==> Delivered(records, mode, q))
    ensures forall i :: p <= i < q ==> !Delivered(records, mode, i)
    decreases |records| - p
  {
    if p == |records| || Delivered(records, mode, p) then p else NextIndex(records, mode, p + 1)
  }

  /** The delivered records from p on, by a plain walk of the file. */
  function Walk(records: seq<Record>, mode: Mode, p: nat): seq<Record>
    requires p <= |records|
    decreases |records| - p
  {
    if p == |records| then []
    else (if Delivered(records, mode, p) then [records[p]] else []) + Walk(records, mode, p + 1)
  }

  function Users(records: seq<Record>): seq<Record> {
    if records == [] then []
    else (if IsUser(records[0]) then [records[0]] else []) + Users(records[1..])
  }

  // ----- The reader -----

  class Reader {
    const records: seq<Record>   // the file
    const tail: nat              // bytes after the last whole record
    var offset: nat              // the kernel's file offset, in bytes
    var isOpen: bool
    const utmpbuf: array<Record>
    var numRecs: nat
    var curRec: nat
    ghost var base: nat          // records before the buffered block

    ghost function Size(): nat {
      |records| * UTSIZE + tail
    }

    ghost predicate Valid()
      reads this, utmpbuf
    {
      && tail < UTSIZE && utmpbuf.Length == NRECS
      && curRec <= numRecs <= NRECS && base + numRecs <= |records|
      && (forall i :: 0 <= i < numRecs ==> utmpbuf[i] == records[base + i])
      && (numRecs > 0 ==> base % NRECS == 0)
      && (base + numRecs == 0 || numRecs == NRECS || base + numRecs == |records|)
      && (offset == (base + numRecs) * UTSIZE || (base + numRecs == |records| && offset == Size()))
    }

    /** How many records have been looked at. */
    ghost function Position(): nat
      reads this
    {
      base + curRec
    }

    constructor (records: seq<Record>, tail: nat, buffer: array<Record>)
      requires tail < UTSIZE && buffer.Length == NRECS
      ensures Valid() && this.records == records && Position() == 0 && !isOpen && utmpbuf == buffer
    {
      this.records, this.tail, this.utmpbuf := records, tail, buffer;
      offset, isOpen, numRecs, curRec, base := 0, false, 0, 0, 0;
    }

    /** utmp_open: whatever was buffered is forgotten, even when the open fails. */
    method Open(succeeds: bool)
      requires Valid()
      modifies this
      ensures Valid() && Position() == 0 && isOpen == succeeds
    {
      isOpen, offset := succeeds, 0;
      numRecs, curRec := 0, 0;
      base := 0;
    }

    /** utmp_reload: the next block, less at the end of the file; a fragment of a record is dropped. */
    method Reload() returns (n: nat)
      requires Valid() && curRec == numRecs
      modifies this, utmpbuf
      ensures Valid() && isOpen == old(isOpen) && Position() == old(Position()) && curRec == 0
      ensures n == numRecs && (n == 0 <==> old(Position()) == |records|)
      ensures n > 0 ==> n == NRECS || base + n == |records|
    {
      base := base + numRecs;
      ReadGets(|records|, tail, base, offset);
      var first := offset / UTSIZE;
      var left := |records| * UTSIZE + tail - offset;
      var amtRead := if left < NRECS * UTSIZE then left else NRECS * UTSIZE;
      numRecs := amtRead / UTSIZE;
      forall i | 0 <= i < numRecs {
        utmpbuf[i] := records[first + i];
      }
      offset := offset + amtRead;
      curRec := 0;
      n := numRecs;
    }

    /** The loop of utmp_next(0): up to a user's record, but never beyond the buffered block. */
    method NextUser() returns (recp: Record)
      requires Valid() && curRec < numRecs
      modifies this`curRec
      ensures Valid() && 0 < curRec
      ensures Position() == NextIndex(records, UsersOnly, old(Position())) + 1 && recp == records[Position() - 1]
    {
      ghost var p := Position();
      recp := utmpbuf[curRec];
      curRec := curRec + 1;
      while curRec < numRecs && recp.utType != USER_PROCESS
        invariant 0 < curRec <= numRecs && p < base + curRec && recp == records[base + curRec - 1]
        invariant forall i :: p <= i < base + curRec - 1 ==> !Delivered(records, UsersOnly, i)
        decreases numRecs - curRec
      {
        InsideBlock(records, base, numRecs, curRec - 1);
        recp := utmpbuf[curRec];
        curRec := curRec + 1;
      }
      InsideBlock(records, base, numRecs, curRec - 1);
      NextIndexIs(records, UsersOnly, p, base + curRec - 1);
    }

    /** The loop of utmp_next(1) stops at once: no type is both below INIT_PROCESS and above DEAD_PROCESS. */
    method NextAny() returns (recp: Record)
      requires Valid() && curRec < numRecs
      modifies this`curRec
      ensures Valid() && Position() == old(Position()) + 1 && recp == records[old(Position())]
    {
      recp := utmpbuf[curRec];
      curRec := curRec + 1;
      assert !(recp.utType < INIT_PROCESS && recp.utType > DEAD_PROCESS);
    }

    /** utmp_next: the next delivered record, none at the end or when the file is not open. */
    method Next(mode: Mode) returns (r: Option<Record>)
      requires Valid()
      modifies this, utmpbuf
      ensures Valid() && isOpen == old(isOpen)
      ensures !isOpen ==> r.None? && Position() == old(Position())
      ensures isOpen ==> var q := NextIndex(records, mode, old(Position()));
              if q == |records| then r.None? && Position() == q
              else r == Some(records[q]) && Position() == q + 1
      ensures isOpen ==> Walk(records, mode, old(Position()))
                         == if r.None? then [] else [r.value] + Walk(records, mode, Position())
    {
      if !isOpen {
        return None;
      }
      WalkFromNext(records, mode, Position());
      if curRec == numRecs {
        var n := Reload();
        if n == 0 {
          return None;
        }
      }
      if mode.UsersOnly? {
        var recp := NextUser();
        return Some(recp);
      } else {
        var recp := NextAny();
        return Some(recp);
      }
    }

    /** The loop of who over the whole file. */
    method ShowAll(mode: Mode) returns (shown: seq<Record>)
      requires Valid() && isOpen
      modifies this, utmpbuf
      ensures Valid() && shown == Walk(records, mode, old(Position()))
    {
      shown := [];
      ghost var whole := Walk(records, mode, Position());
      ghost var todo := whole;
      var r := Next(mode);
      while r.Some?
        invariant Valid() && isOpen && whole == shown + todo
        invariant todo == if r.None? then [] else [r.value] + Walk(records, mode, Position())
        decreases |todo|
      {
        MoveOne(whole, shown, r.value, Walk(records, mode, Position()));
        shown := shown + [r.value];
        todo := Walk(records, mode, Position());
        r := Next(mode);
      }
    }
  }

  lemma MoveOne(whole: seq<Record>, shown: seq<Record>, r: Record, rest: seq<Record>)
    requires whole == shown + ([r] + rest)
    ensures whole == (shown + [r]) + rest
  {
  }

  lemma NextIndexIs(records: seq<Record>, mode: Mode, p: nat, q: nat)
    requires p <= q < |records| && Delivered(records, mode, q)
    requires forall i :: p <= i < q ==> !Delivered(records, mode, i)
    ensures NextIndex(records, mode, p) == q
  {
  }

  /** What a read of a whole buffer gets, in records: all that is left, but no more than the buffer holds. */
  lemma ReadGets(total: nat, tail: nat, done: nat, offset: nat)
    requires tail < UTSIZE && done <= total
    requires offset == done * UTSIZE || (done == total && offset == total * UTSIZE + tail)
    ensures var left := total * UTSIZE + tail - offset;
            var amtRead := if left < NRECS * UTSIZE then left else NRECS * UTSIZE;
            && left >= 0 && offset / UTSIZE == done
            && amtRead / UTSIZE == (if total - done < NRECS then total - done else NRECS)
            && (amtRead == (amtRead / UTSIZE) * UTSIZE || offset + amtRead == total * UTSIZE + tail)
  {
  }

  /** A buffered record ends its block exactly when it is the last one buffered. */
  lemma InsideBlock(records: seq<Record>, base: nat, n: nat, k: nat)
    requires base % NRECS == 0 && k < n <= NRECS && base + n <= |records|
    requires n == NRECS || base + n == |records|
    ensures EndsBlock(records, base + k) <==> k + 1 == n
  {
    assert (base + k) % NRECS == k;
  }

  /** The walk continues at the next delivered record. */
  lemma {:induction false} WalkFromNext(records: seq<Record>, mode: Mode, p: nat)
    requires p <= |records|
    ensures var q := NextIndex(records, mode, p);
            Walk(records, mode, p) == if q == |records| then [] else [records[q]] + Walk(records, mode, q + 1)
    decreases |records| - p
  {
    if p < |records| && !Delivered(records, mode, p) {
      WalkFromNext(records, mode, p + 1);
    }
  }
}
