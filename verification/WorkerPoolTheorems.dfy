/** The promises of the worker pool, for every number of producers and workers and every interleaving. */
module WorkerPoolTheorems {
  import opened Counting
  import opened WorkerPool
  import opened WorkerPoolProofs

  // ----- Safety over every run -----

  lemma {:induction false} RunKeepsSize(s: State, es: seq<Event>)
    requires Legal(s, es)
    ensures var t := Exec(s, es);
            t.maxRequests == s.maxRequests && |t.workers| == |s.workers| && |t.producers| == |s.producers|
    decreases es
  {
    if es == [] {
    } else {
      RunKeepsSize(Next(s, es[0]), es[1..]);
    }
  }

  lemma ReachableInv(n: nat, m: nat, max: nat, es: seq<Event>)
    requires Legal(Init(n, m, max), es)
    ensures var s := Exec(Init(n, m, max), es);
            Inv(s) && |s.producers| == n && |s.workers| == m && s.maxRequests == max
  {
    InitHolds(n, m, max);
    RunKeepsInv(Init(n, m, max), es);
    RunKeepsSize(Init(n, m, max), es);
  }

  lemma RunCons(s: State, e: Event, es: seq<Event>)
    requires Enabled(s, e) && Legal(Next(s, e), es)
    ensures Legal(s, [e] + es) && Exec(s, [e] + es) == Exec(Next(s, e), es)
  {
    assert ([e] + es)[1..] == es;
  }

  /** With waits that may fail, the queue is still covered by tokens, holders and pending posts. */
  lemma QueueIsCovered(n: nat, m: nat, max: nat, es: seq<Event>)
    requires Legal(Init(n, m, max), es)
    ensures var s := Exec(Init(n, m, max), es);
            |s.queue| <= s.tokens + Sum(s.workers, Holding) + Sum(s.producers, Unposted)
  {
    ReachableInv(n, m, max, es);
  }

  predicate WaitsTakeTokens(es: seq<Event>) {
    forall i :: 0 <= i < |es| ==> !es[i].Spurious?
  }

  predicate TokenIfAny(pc: WorkerPc) {
    (pc.ToAcquire? || pc.ToCheckEmpty? || pc.ToFront? || pc.ToPop?) ==> pc.token
  }

  /** Every worker past its wait took a token, and none ever gave up. */
  ghost predicate TokensOnly(s: State) {
    && s.log.tokenlessPops == 0
    && forall w :: 0 <= w < |s.workers| ==>
         && !s.workers[w].ToGiveUp?
         && TokenIfAny(s.workers[w])
         && (s.workers[w].ToCheckEmpty? ==> s.queue != [])
  }

  /** A worker that has seen its token never sees an empty queue. */
  lemma HolderSeesRequest(s: State, w: nat)
    requires Balanced(s) && s.log.tokenlessPops == 0
    requires w < |s.workers| && Holding(s.workers[w]) == 1
    ensures s.queue != []
  {
    SumAtLeast(s.workers, w, Holding);
  }

  lemma StepKeepsTokensOnly(s: State, e: Event)
    requires Inv(s) && TokensOnly(s) && Enabled(s, e) && !e.Spurious?
    ensures TokensOnly(Next(s, e))
  {
    var t := Next(s, e);
    StepBalances(s, e);
    forall w | 0 <= w < |t.workers|
      ensures !t.workers[w].ToGiveUp? && TokenIfAny(t.workers[w])
    {
      assert (e.WStep? && e.w == w) || t.workers[w] == s.workers[w];
    }
    forall w | 0 <= w < |t.workers| && t.workers[w].ToCheckEmpty?
      ensures t.queue != []
    {
      HolderSeesRequest(t, w);
    }
  }

  lemma {:induction false} RunKeepsTokensOnly(s: State, es: seq<Event>)
    requires Inv(s) && TokensOnly(s) && Legal(s, es) && WaitsTakeTokens(es)
    ensures Inv(Exec(s, es)) && TokensOnly(Exec(s, es))
    decreases es
  {
    if es == [] {
    } else {
      var t := Next(s, es[0]);
      assert Exec(s, [es[0]]) == t;
      RunKeepsInv(s, [es[0]]);
      StepKeepsTokensOnly(s, es[0]);
      assert forall i :: 0 <= i < |es[1..]| ==> es[1..][i] == es[i + 1];
      RunKeepsTokensOnly(t, es[1..]);
    }
  }

  /** The exact account when waits succeed only by a token: no lost wake-up, no empty branch. */
  lemma TokenAccount(n: nat, m: nat, max: nat, es: seq<Event>)
    requires Legal(Init(n, m, max), es) && WaitsTakeTokens(es)
    ensures var s := Exec(Init(n, m, max), es);
            && |s.queue| == s.tokens + Sum(s.workers, Holding) + Sum(s.producers, Unposted)
            && forall w :: 0 <= w < |s.workers| ==>
                 !s.workers[w].ToGiveUp? && (s.workers[w].ToCheckEmpty? ==> s.queue != [])
  {
    InitHolds(n, m, max);
    RunKeepsTokensOnly(Init(n, m, max), es);
  }

  /** Wherever the queue is empty and the mutex free, one failed wait sends a waiting worker to the empty branch. */
  lemma FailedWaitReachesEmptyBranch(s: State, w: nat)
    requires s.queue == [] && s.mutex.Free? && w < |s.workers| && s.workers[w].ToWait?
    ensures var es := [Spurious(w), WStep(w), WStep(w)];
            Legal(s, es) && Exec(s, es) == s.(mutex := Worker(w), workers := s.workers[w := ToGiveUp])
  {
    var s1 := Next(s, Spurious(w));
    var s2 := Next(s1, WStep(w));
    var s3 := Next(s2, WStep(w));
    RunCons(s2, WStep(w), []);
    RunCons(s1, WStep(w), [WStep(w)]);
    RunCons(s, Spurious(w), [WStep(w)] + [WStep(w)]);
    assert [Spurious(w)] + ([WStep(w)] + [WStep(w)]) == [Spurious(w), WStep(w), WStep(w)];
    assert s3.workers == s.workers[w := ToGiveUp];
  }

  // ----- Refinement of an atomic bounded queue -----

  /** The queue as its users see it: what waits, what went in, what came out, what was refused. */
  datatype Fifo = Fifo(items: seq<Request>, put: seq<Request>, got: seq<Request>, refused: seq<Request>)

  datatype FifoAction = Stutter | Put(r: Request) | Get | Refuse(r: Request)

  /** An atomic queue that refuses exactly when it holds max + 1 requests. */
  predicate FifoNext(max: nat, a: Fifo, b: Fifo, action: FifoAction) {
    match action
    case Stutter => b == a
    case Put(r) => |a.items| <= max && b == a.(items := a.items + [r], put := a.put + [r])
    case Get => a.items != [] && b == a.(items := a.items[1..], got := a.got + [a.items[0]])
    case Refuse(r) => |a.items| == max + 1 && b == a.(refused := a.refused + [r])
  }

  function View(s: State): Fifo {
    Fifo(s.queue, s.log.accepted, s.log.dequeued, s.log.rejected)
  }

  function ActionOf(s: State, e: Event): FifoAction
    requires Enabled(s, e)
  {
    if e.PStep? && s.producers[e.p].ToPush? then Put(s.producers[e.p].r)
    else if e.PStep? && s.producers[e.p].ToReject? then Refuse(s.producers[e.p].r)
    else if e.WStep? && s.workers[e.w].ToPop? then Get
    else Stutter
  }

  /** Every statement of append and run is one atomic queue action or changes nothing visible. */
  lemma StepRefinesFifo(s: State, e: Event)
    requires Inv(s) && Enabled(s, e)
    ensures FifoNext(s.maxRequests, View(s), View(Next(s, e)), ActionOf(s, e))
  {
  }

  ghost predicate FifoRun(max: nat, a: Fifo, actions: seq<FifoAction>, b: Fifo)
    decreases actions
  {
    if actions == [] then a == b
    else exists c :: FifoNext(max, a, c, actions[0]) && FifoRun(max, c, actions[1..], b)
  }

  ghost function ActionsOf(s: State, es: seq<Event>): seq<FifoAction>
    requires Legal(s, es)
    decreases es
  {
    if es == [] then [] else [ActionOf(s, es[0])] + ActionsOf(Next(s, es[0]), es[1..])
  }

  lemma {:induction false} RunRefinesFifo(s: State, es: seq<Event>)
    requires Inv(s) && Legal(s, es)
    ensures FifoRun(s.maxRequests, View(s), ActionsOf(s, es), View(Exec(s, es)))
    decreases es
  {
    if es == [] {
    } else {
      var t := Next(s, es[0]);
      StepRefinesFifo(s, es[0]);
      assert Exec(s, [es[0]]) == t;
      RunKeepsInv(s, [es[0]]);
      RunRefinesFifo(t, es[1..]);
      assert ActionsOf(s, es)[1..] == ActionsOf(t, es[1..]);
    }
  }

  /** Every run of the pool is a run of the atomic queue, first in first out, never above max + 1. */
  lemma PoolIsBoundedFifo(n: nat, m: nat, max: nat, es: seq<Event>)
    requires Legal(Init(n, m, max), es)
    ensures var s := Exec(Init(n, m, max), es);
            && FifoRun(max, Fifo([], [], [], []), ActionsOf(Init(n, m, max), es), View(s))
            && s.log.accepted == s.log.dequeued + s.queue
            && |s.queue| <= max + 1
  {
    InitHolds(n, m, max);
    ReachableInv(n, m, max, es);
    RunRefinesFifo(Init(n, m, max), es);
    RunKeepsSize(Init(n, m, max), es);
  }

  /** A producer running alone pushes until the queue holds max + 1 requests, one more than documented. */
  lemma {:induction false} FillsOnePastLimit(s: State, p: nat, r: Request) returns (es: seq<Event>)
    requires p < |s.producers| && s.producers[p].Idle? && s.mutex.Free? && |s.queue| <= s.maxRequests + 1
    ensures Legal(s, es) && |Exec(s, es).queue| == s.maxRequests + 1
    decreases s.maxRequests + 1 - |s.queue|
  {
    if |s.queue| == s.maxRequests + 1 {
      es := [];
    } else {
      var s1 := Next(s, Call(p, r));
      var s2 := Next(s1, PStep(p));
      var s3 := Next(s2, PStep(p));
      var s4 := Next(s3, PStep(p));
      var s5 := Next(s4, PStep(p));
      var s6 := Next(s5, PStep(p));
      var rest := FillsOnePastLimit(s6, p, r);
      RunCons(s5, PStep(p), rest);
      RunCons(s4, PStep(p), [PStep(p)] + rest);
      RunCons(s3, PStep(p), [PStep(p)] + ([PStep(p)] + rest));
      RunCons(s2, PStep(p), [PStep(p)] + ([PStep(p)] + ([PStep(p)] + rest)));
      var tail := [PStep(p)] + ([PStep(p)] + ([PStep(p)] + ([PStep(p)] + rest)));
      RunCons(s1, PStep(p), tail);
      RunCons(s, Call(p, r), [PStep(p)] + tail);
      es := [Call(p, r)] + ([PStep(p)] + tail);
    }
  }

  // ----- Progress -----

  /** Events other than a new call of append or a failed wait. */
  predicate Working(e: Event) {
    e.PStep? || e.WStep?
  }

  ghost predicate Quiescent(s: State) {
    forall e :: Working(e) ==> !Enabled(s, e)
  }

  ghost predicate Drained(s: State) {
    && s.queue == [] && s.tokens == 0 && s.mutex.Free?
    && (forall p :: 0 <= p < |s.producers| ==> s.producers[p].Idle?)
    && (forall w :: 0 <= w < |s.workers| ==> s.workers[w].ToWait?)
  }

  /** No deadlock: unless everything is drained, some thread can execute its next statement. */
  lemma Progress(s: State) returns (e: Event)
    requires Inv(s) && |s.workers| > 0 && !Drained(s)
    ensures Working(e) && Enabled(s, e)
  {
    if s.mutex.Producer? {
      e := PStep(s.mutex.p);
    } else if s.mutex.Worker? {
      e := WStep(s.mutex.w);
    } else if p :| 0 <= p < |s.producers| && !s.producers[p].Idle? {
      e := PStep(p);
    } else if w :| 0 <= w < |s.workers| && !s.workers[w].ToWait? {
      e := WStep(w);
    } else {
      SumZero(s.workers, Holding);
      SumZero(s.producers, Unposted);
      e := WStep(0);
    }
  }

  /** The only states where nothing can move are the drained ones. */
  lemma QuiescentIffDrained(s: State)
    requires Inv(s) && |s.workers| > 0
    ensures Quiescent(s) <==> Drained(s)
  {
    if !Drained(s) {
      var e := Progress(s);
    }
  }

  /** A waiting request always finds a worker that can move, even after failed waits. */
  lemma WaitingRequestHasWorker(s: State) returns (w: nat)
    requires Inv(s) && |s.workers| > 0 && s.queue != []
    requires forall p :: 0 <= p < |s.producers| ==> s.producers[p].Idle?
    ensures Enabled(s, WStep(w))
  {
    var e := Progress(s);
    w := e.w;
  }

  function ProducerRank(pc: ProducerPc): nat {
    match pc
    case Idle => 0
    case ToLock(_) => 13
    case ToCheckSize(_) => 12
    case ToReject(_) => 1
    case ToPush(_) => 11
    case ToUnlock(_) => 10
    case ToPost(_) => 9
  }

  function WorkerRank(pc: WorkerPc): nat {
    match pc
    case ToWait => 0
    case ToAcquire(_) => 7
    case ToCheckEmpty(_) => 6
    case ToGiveUp => 1
    case ToFront(_) => 5
    case ToPop(_, _) => 4
    case ToRelease(_) => 3
    case ToTest(_) => 2
    case ToProcess(_) => 1
  }

  /** Statements still to be executed, counting eight for a token. */
  ghost function Measure(s: State): nat {
    8 * s.tokens + Sum(s.workers, WorkerRank) + Sum(s.producers, ProducerRank)
  }

  lemma AppendLowersRank(s: State, p: nat)
    requires Enabled(s, PStep(p))
    ensures var t := AppendNext(s, p);
            && t.producers == s.producers[p := t.producers[p]] && t.workers == s.workers
            && 8 * t.tokens + ProducerRank(t.producers[p]) < 8 * s.tokens + ProducerRank(s.producers[p])
  {
  }

  lemma RunLowersRank(s: State, w: nat)
    requires Enabled(s, WStep(w))
    ensures var t := RunNext(s, w);
            && t.workers == s.workers[w := t.workers[w]] && t.producers == s.producers
            && 8 * t.tokens + WorkerRank(t.workers[w]) < 8 * s.tokens + WorkerRank(s.workers[w])
  {
  }

  lemma StepLowersMeasure(s: State, e: Event)
    requires Enabled(s, e) && Working(e)
    ensures Measure(Next(s, e)) < Measure(s)
  {
    var t := Next(s, e);
    if e.PStep? {
      AppendLowersRank(s, e.p);
      SumUpdate(s.producers, e.p, t.producers[e.p], ProducerRank);
    } else {
      RunLowersRank(s, e.w);
      SumUpdate(s.workers, e.w, t.workers[e.w], WorkerRank);
    }
  }

  /** A new call and a failed wait raise the measure by no more than the statements they add. */
  lemma StepRaisesMeasure(s: State, e: Event)
    requires Enabled(s, e) && !Working(e)
    ensures Measure(Next(s, e)) <= Measure(s) + 13
  {
    if e.Call? {
      SumUpdate(s.producers, e.p, ToLock(e.r), ProducerRank);
    } else {
      SumUpdate(s.workers, e.w, ToAcquire(false), WorkerRank);
    }
  }

  /** How many new calls and failed waits there are among the events. */
  function Disturbances(es: seq<Event>): nat {
    if es == [] then 0 else (if Working(es[0]) then 0 else 1) + Disturbances(es[1..])
  }

  /** No run is longer than its measure and fourteen events for each new call or failed wait. */
  lemma {:induction false} RunIsBounded(s: State, es: seq<Event>)
    requires Legal(s, es)
    ensures |es| + Measure(Exec(s, es)) <= Measure(s) + 14 * Disturbances(es)
    decreases es
  {
    if es == [] {
    } else {
      if Working(es[0]) {
        StepLowersMeasure(s, es[0]);
      } else {
        StepRaisesMeasure(s, es[0]);
      }
      RunIsBounded(Next(s, es[0]), es[1..]);
    }
  }

  predicate AllWorking(es: seq<Event>) {
    forall i :: 0 <= i < |es| ==> Working(es[i])
  }

  lemma {:induction false} WorkingIsUndisturbed(es: seq<Event>)
    requires AllWorking(es)
    ensures Disturbances(es) == 0
  {
    if es == [] {
    } else {
      assert forall i :: 0 <= i < |es[1..]| ==> es[1..][i] == es[i + 1];
      WorkingIsUndisturbed(es[1..]);
    }
  }

  /** Without new calls and failed waits, no run is longer than the measure. */
  lemma WorkingRunIsShort(s: State, es: seq<Event>)
    requires Legal(s, es) && AllWorking(es)
    ensures |es| + Measure(Exec(s, es)) <= Measure(s)
  {
    RunIsBounded(s, es);
    WorkingIsUndisturbed(es);
  }

  /** From every state of every run, the threads can finish all the work. */
  lemma {:induction false} CanDrain(s: State) returns (es: seq<Event>)
    requires Inv(s) && |s.workers| > 0
    ensures Legal(s, es) && AllWorking(es) && Drained(Exec(s, es))
    decreases Measure(s)
  {
    if Drained(s) {
      es := [];
    } else {
      var e := Progress(s);
      StepLowersMeasure(s, e);
      assert Exec(s, [e]) == Next(s, e);
      RunKeepsInv(s, [e]);
      RunKeepsSize(s, [e]);
      var rest := CanDrain(Next(s, e));
      es := [e] + rest;
      assert es[1..] == rest;
    }
  }

  // ----- Service -----

  /** The arguments of the calls of append among the events, in order. */
  function CallsOf(es: seq<Event>): seq<Request> {
    if es == [] then [] else (if es[0].Call? then [es[0].r] else []) + CallsOf(es[1..])
  }

  lemma {:induction false} RunRecordsCalls(s: State, es: seq<Event>)
    requires Legal(s, es)
    ensures Exec(s, es).log.called == s.log.called + CallsOf(es)
    decreases es
  {
    if es == [] {
    } else {
      RunRecordsCalls(Next(s, es[0]), es[1..]);
    }
  }

  /**
  Requests are processed by process() alone: a worker that finds its request not null calls process() next,
  the request is processed when that returns, and only null is passed over.
  */
  lemma ProcessedByProcessOnly(s: State, e: Event)
    requires Enabled(s, e)
    ensures var t := Next(s, e);
            && (e.WStep? && s.workers[e.w].ToTest? && s.workers[e.w].r != 0 ==>
                  t.workers[e.w] == ToProcess(s.workers[e.w].r) && t.log == s.log)
            && t.log.processed == s.log.processed +
                 (if e.WStep? && s.workers[e.w].ToProcess? then [s.workers[e.w].r] else [])
            && t.log.skipped == s.log.skipped + if e.WStep? && s.workers[e.w] == ToTest(0) then 1 else 0
  {
  }

  /** In every run each dequeued request other than null is processed or with a worker, exactly once; null never is. */
  lemma PoppedIsProcessedOnce(n: nat, m: nat, max: nat, es: seq<Event>, x: Request)
    requires Legal(Init(n, m, max), es)
    ensures var s := Exec(Init(n, m, max), es);
            && 0 !in s.log.processed
            && multiset(s.log.dequeued)[0] == s.log.skipped + Carried(s, 0)
            && (x != 0 ==> multiset(s.log.dequeued)[x] == multiset(s.log.processed)[x] + Carried(s, x))
  {
    var s := Exec(Init(n, m, max), es);
    ReachableInv(n, m, max, es);
    assert Times(0, s.log.dequeued) == Served(s.log, 0) + Carried(s, 0);
    assert Times(x, s.log.dequeued) == Served(s.log, x) + Carried(s, x);
  }

  lemma DrainedCounts(s: State, x: Request)
    requires Inv(s) && Drained(s)
    ensures Times(x, s.log.accepted) == Served(s.log, x)
    ensures Times(x, s.log.called) == Times(x, s.log.accepted) + Times(x, s.log.rejected)
  {
    SumZero(s.workers, CarriedIs(x));
    SumZero(s.producers, UnpushedIs(x));
    assert s.log.accepted == s.log.dequeued;
  }

  /**
  Whatever the schedule, when nothing can move every accepted request other than null was processed exactly
  once, every null was skipped, and every call was accepted or refused.
  */
  lemma QuietMeansServed(n: nat, m: nat, max: nat, es: seq<Event>)
    requires m > 0 && Legal(Init(n, m, max), es) && Quiescent(Exec(Init(n, m, max), es))
    ensures var log := Exec(Init(n, m, max), es).log;
            && log.dequeued == log.accepted
            && multiset(log.processed) == multiset(log.accepted)[0 := 0]
            && log.skipped == multiset(log.accepted)[0]
            && multiset(CallsOf(es)) == multiset(log.accepted) + multiset(log.rejected)
  {
    var s := Exec(Init(n, m, max), es);
    ReachableInv(n, m, max, es);
    QuiescentIffDrained(s);
    RunRecordsCalls(Init(n, m, max), es);
    assert s.log.called == CallsOf(es);
    DrainedCounts(s, 0);
    forall x
      ensures multiset(s.log.processed)[x] == multiset(s.log.accepted)[0 := 0][x]
      ensures multiset(s.log.called)[x] == (multiset(s.log.accepted) + multiset(s.log.rejected))[x]
    {
      DrainedCounts(s, x);
      assert Times(x, s.log.processed) == if x == 0 then 0 else Times(x, s.log.accepted);
    }
  }
}
