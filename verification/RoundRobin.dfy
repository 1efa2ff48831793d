/**
The dispatch of new connections to children in CGIserv/processpool.h.

A slot whose m_pid is -1 belongs to a child that has died; children die and never come back. The scan
starts at the counter, wraps around, and stops at the first slot that is not -1.
*/
module RoundRobin {
  import opened Options

  const MAX_PROCESS_NUMBER: nat := 16
  const DEAD: int := -1

  /** The slot table and sub_process_counter. */
  datatype State = State(pids: seq<int>, counter: nat)

  datatype Event = Dispatch | Die(slot: nat)

  ghost predicate Valid(s: State) {
    0 < |s.pids| && s.counter < |s.pids|
  }

  predicate Live(s: State, i: nat)
    requires i < |s.pids|
  {
    s.pids[i] != DEAD
  }

  /** How many slots the scan passes from `from` before it looks at slot i. */
  function Dist(n: nat, from: nat, i: nat): nat
    requires from < n && i < n
  {
    if from <= i then i - from else i + n - from
  }

  /** The scan, d slots after the counter. */
  function Scan(s: State, d: nat): Option<nat>
    requires Valid(s) && d <= |s.pids|
    decreases |s.pids| - d
  {
    var n := |s.pids|;
    if d == n then None
    else if Live(s, (s.counter + d) % n) then Some((s.counter + d) % n)
    else Scan(s, d + 1)
  }

  function Pick(s: State): Option<nat>
    requires Valid(s)
  {
    Scan(s, 0)
  }

  function Next(s: State, e: Event): (t: State)
    requires Valid(s)
    ensures Valid(t) && |t.pids| == |s.pids|
  {
    match e
    case Dispatch => if Pick(s).None? then s else s.(counter := (Pick(s).value + 1) % |s.pids|)
    case Die(i) => if i < |s.pids| then s.(pids := s.pids[i := DEAD]) else s
  }

  function Exec(s: State, es: seq<Event>): (t: State)
    requires Valid(s)
    ensures Valid(t) && |t.pids| == |s.pids|
    decreases es
  {
    if es == [] then s else Exec(Next(s, es[0]), es[1..])
  }

  /** 1 if the event dispatches to slot a. */
  function Picked(s: State, e: Event, a: nat): nat
    requires Valid(s)
  {
    if e.Dispatch? && Pick(s) == Some(a) then 1 else 0
  }

  /** How often slot a is chosen in a run. */
  function Count(s: State, es: seq<Event>, a: nat): nat
    requires Valid(s)
    decreases es
  {
    if es == [] then 0 else Picked(s, es[0], a) + Count(Next(s, es[0]), es[1..], a)
  }

  function Dispatches(es: seq<Event>): nat {
    if es == [] then 0 else (if es[0].Dispatch? then 1 else 0) + Dispatches(es[1..])
  }

  /** The parent process: its table of children, its counter and its stop flag. */
  class Parent {
    const subProcess: array<int>
    var counter: nat
    var stop: bool

    ghost predicate Ready()
      reads this
    {
      0 < subProcess.Length <= MAX_PROCESS_NUMBER && counter < subProcess.Length
    }

    ghost function Contents(): State
      reads this, subProcess
    {
      State(subProcess[..], counter)
    }

    constructor (subProcess: array<int>)
      requires 0 < subProcess.Length <= MAX_PROCESS_NUMBER
      ensures this.subProcess == subProcess && Ready() && Contents() == State(subProcess[..], 0) && !stop
    {
      this.subProcess := subProcess;
      this.counter, this.stop := 0, false;
    }

    /** One new connection: the chosen child, or none, in which case the parent stops. */
    method DispatchConnection() returns (child: Option<nat>)
      requires Ready()
      modifies this
      ensures Ready()
      ensures child.None? <==> forall i :: 0 <= i < subProcess.Length ==> subProcess[i] == -1
      ensures child.None? ==> counter == old(counter)
      ensures child.Some? ==>
                && child.value < subProcess.Length && subProcess[child.value] != -1
                && counter == (if child.value + 1 == subProcess.Length then 0 else child.value + 1)
                && forall j :: 0 <= j < subProcess.Length && subProcess[j] != -1 ==>
                     if old(counter) <= child.value then old(counter) <= j ==> child.value <= j
                     else j < old(counter) && child.value <= j
      ensures child == Pick(old(Contents()))
      ensures Contents() == Next(old(Contents()), Dispatch)
      ensures stop == (old(stop) || child.None?)
    {
      var n := subProcess.Length;
      var i := counter;
      ghost var s, d := Contents(), 0;
      ModIs(n, counter);
      while true
        invariant 0 <= d < n && i == (counter + d) % n
        invariant Scan(s, d) == Pick(s)
        invariant d > 0 ==> subProcess[counter] == DEAD
        modifies {}
        decreases n - d
      {
        if subProcess[i] != DEAD {
          break;
        }
        StepAround(n, counter, d);
        i := (i + 1) % n;
        d := d + 1;
        if i == counter {
          break;
        }
      }
      FirstAround(s);
      if subProcess[i] == DEAD {
        stop := true;
        return None;
      }
      ModIs(n, i + 1);
      counter := (i + 1) % n;
      return Some(i);
    }

    /** The environment: child i is gone and its slot is marked. */
    method ChildDied(i: nat)
      requires Ready() && i < subProcess.Length
      modifies subProcess
      ensures Ready() && Contents() == Next(old(Contents()), Die(i))
      ensures subProcess[i] == -1
      ensures forall j :: 0 <= j < subProcess.Length && j != i ==> subProcess[j] == old(subProcess[j])
    {
      subProcess[i] := DEAD;
    }
  }

  // ----- Walking around the table -----

  lemma ModIs(n: nat, x: nat)
    requires 0 < n && x < 2 * n
    ensures x % n == if x < n then x else x - n
  {
    var q, r := x / n, x % n;
    assert x == n * q + r && 0 <= r < n;
    assert n * (q - 1) == n * q - n;
  }

  /** One more step of the scan; it is back at the counter exactly after n steps. */
  lemma StepAround(n: nat, c: nat, d: nat)
    requires c < n && d < n
    ensures ((c + d) % n + 1) % n == (c + d + 1) % n
    ensures (c + d + 1) % n == c <==> d + 1 == n
  {
    ModIs(n, c + d);
    ModIs(n, (c + d) % n + 1);
    ModIs(n, c + d + 1);
  }

  // ----- The choice -----

  lemma {:induction false} ScanIsFirst(s: State, d: nat)
    requires Valid(s) && d <= |s.pids|
    ensures var n, c, r := |s.pids|, s.counter, Scan(s, d);
            && (r.Some? ==> r.value < n && Live(s, r.value) && d <= Dist(n, c, r.value)
                            && forall j :: 0 <= j < n && d <= Dist(n, c, j) < Dist(n, c, r.value) ==> !Live(s, j))
            && (r.None? ==> forall j :: 0 <= j < n && d <= Dist(n, c, j) ==> !Live(s, j))
    decreases |s.pids| - d
  {
    var n, c := |s.pids|, s.counter;
    if d < n {
      var i := (c + d) % n;
      ModIs(n, c + d);
      assert Dist(n, c, i) == d;
      assert forall j :: 0 <= j < n && Dist(n, c, j) == d ==> j == i;
      ScanIsFirst(s, d + 1);
    }
  }

  /** The choice is the first live slot at or cyclically after the counter; none exactly if none lives. */
  lemma PickIsFirstLive(s: State)
    requires Valid(s)
    ensures var n, c, r := |s.pids|, s.counter, Pick(s);
            && (r.None? <==> forall j :: 0 <= j < n ==> !Live(s, j))
            && (r.Some? ==> r.value < n && Live(s, r.value)
                            && forall j :: 0 <= j < n && Live(s, j) ==> Dist(n, c, r.value) <= Dist(n, c, j))
  {
    ScanIsFirst(s, 0);
  }

  /** In terms of the table: nothing lives from the counter up to the choice, around the end if need be. */
  lemma FirstAround(s: State)
    requires Valid(s)
    ensures var n, c, r := |s.pids|, s.counter, Pick(s);
            && (r.None? <==> forall j :: 0 <= j < n ==> s.pids[j] == -1)
            && (r.Some? ==> r.value < n && s.pids[r.value] != -1
                            && forall j :: 0 <= j < n && s.pids[j] != -1 ==>
                                 if c <= r.value then c <= j ==> r.value <= j else j < c && r.value <= j)
  {
    PickIsFirstLive(s);
    var n, c, r := |s.pids|, s.counter, Pick(s);
    if r.Some? {
      forall j | 0 <= j < n && s.pids[j] != -1
        ensures if c <= r.value then c <= j ==> r.value <= j else j < c && r.value <= j
      {
        assert Live(s, j);
      }
    } else if j :| 0 <= j < n && s.pids[j] != -1 {
      assert Live(s, j);
    }
  }

  /** After a dispatch the chosen slot is last in line and all later ones have moved up equally. */
  lemma ChosenGoesLast(s: State, i: nat, j: nat)
    requires Valid(s) && i < |s.pids| && j < |s.pids|
    ensures var n, c := |s.pids|, s.counter;
            var c' := (i + 1) % n;
            && Dist(n, c', i) == n - 1
            && (Dist(n, c, i) < Dist(n, c, j) ==> Dist(n, c', j) == Dist(n, c, j) - Dist(n, c, i) - 1)
            && (Dist(n, c, j) < Dist(n, c, i) ==> Dist(n, c', j) == Dist(n, c, j) + n - Dist(n, c, i) - 1)
  {
    ModIs(|s.pids|, i + 1);
  }

  // ----- Fairness -----

  /** Is a in line before b? */
  function Before(s: State, a: nat, b: nat): int
    requires Valid(s) && a < |s.pids| && b < |s.pids|
  {
    var n := |s.pids|;
    if Dist(n, s.counter, a) < Dist(n, s.counter, b) then 1 else 0
  }

  lemma {:induction false} LiveEarlier(s: State, es: seq<Event>, a: nat)
    requires Valid(s) && a < |s.pids| && Live(Exec(s, es), a)
    ensures Live(s, a)
    decreases es
  {
    if es == [] {
    } else {
      LiveEarlier(Next(s, es[0]), es[1..], a);
    }
  }

  lemma StepShare(s: State, e: Event, a: nat, b: nat)
    requires Valid(s) && a < |s.pids| && b < |s.pids| && a != b && Live(s, a) && Live(s, b)
    ensures var t := Next(s, e);
            Picked(s, e, a) - Picked(s, e, b) == Before(s, a, b) - Before(t, a, b)
  {
    if e.Dispatch? {
      PickIsFirstLive(s);
      ChosenGoesLast(s, Pick(s).value, a);
      ChosenGoesLast(s, Pick(s).value, b);
    }
  }

  /** In every window, the shares of two children that live throughout differ by their places in line. */
  lemma {:induction false} ShareLaw(s: State, es: seq<Event>, a: nat, b: nat)
    requires Valid(s) && a < |s.pids| && b < |s.pids| && a != b
    requires Live(Exec(s, es), a) && Live(Exec(s, es), b)
    ensures Count(s, es, a) - Count(s, es, b) == Before(s, a, b) - Before(Exec(s, es), a, b)
    decreases es
  {
    if es == [] {
    } else {
      var t := Next(s, es[0]);
      LiveEarlier(s, es, a);
      LiveEarlier(s, es, b);
      StepShare(s, es[0], a, b);
      ShareLaw(t, es[1..], a, b);
    }
  }

  /** The round robin is fair: such shares never differ by more than one. */
  lemma FairShares(s: State, es: seq<Event>, a: nat, b: nat)
    requires Valid(s) && a < |s.pids| && b < |s.pids|
    requires Live(Exec(s, es), a) && Live(Exec(s, es), b)
    ensures -1 <= Count(s, es, a) - Count(s, es, b) <= 1
  {
    if a != b {
      ShareLaw(s, es, a, b);
    }
  }

  /** The live children in line before a. */
  ghost function Ahead(s: State, a: nat): set<nat>
    requires Valid(s) && a < |s.pids|
  {
    set j: nat | j < |s.pids| && Live(s, j) && Dist(|s.pids|, s.counter, j) < Dist(|s.pids|, s.counter, a)
  }

  lemma StepShortensLine(s: State, e: Event, a: nat)
    requires Valid(s) && a < |s.pids| && Live(s, a)
    ensures Ahead(Next(s, e), a) <= Ahead(s, a) || Pick(s) == Some(a)
    ensures e.Dispatch? && Pick(s) != Some(a) ==>
              Pick(s).Some? && Pick(s).value in Ahead(s, a) && Ahead(Next(s, e), a) == Ahead(s, a) - {Pick(s).value}
  {
    var t, n := Next(s, e), |s.pids|;
    PickIsFirstLive(s);
    if e.Dispatch? && Pick(s) != Some(a) {
      var i := Pick(s).value;
      ChosenGoesLast(s, i, a);
      forall j: nat | j < n ensures j in Ahead(t, a) <==> j in Ahead(s, a) && j != i {
        ChosenGoesLast(s, i, j);
      }
    }
  }

  lemma SmallerSet(a: set<nat>, b: set<nat>)
    requires a <= b
    ensures |a| <= |b|
  {
    assert b == a + (b - a);
  }

  /** A child is chosen as soon as there were more dispatches than live children before it in line. */
  lemma {:induction false} ServedAfterLine(s: State, es: seq<Event>, a: nat)
    requires Valid(s) && a < |s.pids| && Live(Exec(s, es), a)
    requires Dispatches(es) > |Ahead(s, a)|
    ensures Count(s, es, a) >= 1
    decreases es
  {
    LiveEarlier(s, es, a);
    StepShortensLine(s, es[0], a);
    if !(es[0].Dispatch? && Pick(s) == Some(a)) {
      var t := Next(s, es[0]);
      if es[0].Die? {
        assert Ahead(t, a) <= Ahead(s, a);
      }
      SmallerSet(Ahead(t, a), Ahead(s, a));
      ServedAfterLine(t, es[1..], a);
    }
  }

  lemma {:induction false} BelowSize(s: set<nat>, n: nat)
    requires forall j :: j in s ==> j < n
    ensures |s| <= n
  {
    if n == 0 {
      assert s == {};
    } else {
      BelowSize(s - {n - 1}, n - 1);
    }
  }

  /** Every child that lives throughout is chosen in any n dispatches, n being the size of the pool. */
  lemma ServedEveryRound(s: State, es: seq<Event>, a: nat)
    requires Valid(s) && a < |s.pids| && Live(Exec(s, es), a) && Dispatches(es) >= |s.pids|
    ensures Count(s, es, a) >= 1
  {
    var n := |s.pids|;
    BelowSize(Ahead(s, a) + {a}, n);
    assert |Ahead(s, a) + {a}| == |Ahead(s, a)| + 1;
    ServedAfterLine(s, es, a);
  }
}
