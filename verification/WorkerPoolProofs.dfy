/** What every interleaving of the worker pool keeps, and why it always drains. */
module WorkerPoolProofs {
  import opened Counting
  import opened WorkerPool

  // ----- Mutual exclusion and what it protects -----

  predicate ProducerInside(pc: ProducerPc) {
    pc.ToCheckSize? || pc.ToReject? || pc.ToPush? || pc.ToUnlock?
  }

  predicate WorkerInside(pc: WorkerPc) {
    pc.ToCheckEmpty? || pc.ToGiveUp? || pc.ToFront? || pc.ToPop? || pc.ToRelease?
  }

  /** A thread is between lock and unlock exactly when it owns the mutex. */
  ghost predicate Exclusive(s: State) {
    && (forall p :: 0 <= p < |s.producers| ==> (ProducerInside(s.producers[p]) <==> s.mutex == Producer(p)))
    && (forall w :: 0 <= w < |s.workers| ==> (WorkerInside(s.workers[w]) <==> s.mutex == Worker(w)))
    && (s.mutex.Producer? ==> s.mutex.p < |s.producers|)
    && (s.mutex.Worker? ==> s.mutex.w < |s.workers|)
  }

  /** What a thread inside the critical section has learnt about the queue still holds. */
  ghost predicate Protected(s: State) {
    && |s.queue| <= s.maxRequests + 1
    && (forall p :: 0 <= p < |s.producers| ==>
          && (s.producers[p].ToPush? ==> |s.queue| <= s.maxRequests)
          && (s.producers[p].ToReject? ==> |s.queue| == s.maxRequests + 1))
    && (forall w :: 0 <= w < |s.workers| ==>
          && (s.workers[w].ToFront? ==> s.queue != [])
          && (s.workers[w].ToPop? ==> s.queue != [] && s.workers[w].r == s.queue[0])
          && (s.workers[w].ToProcess? ==> s.workers[w].r != NULL))
  }

  // ----- Tokens -----

  /** A producer that has pushed but not yet posted. */
  function Unposted(pc: ProducerPc): nat {
    if pc.ToUnlock? || pc.ToPost? then 1 else 0
  }

  /** A worker that took a token and has neither popped nor found the queue empty. */
  function Holding(pc: WorkerPc): nat {
    if (pc.ToAcquire? || pc.ToCheckEmpty? || pc.ToFront? || pc.ToPop?) && pc.token then 1 else 0
  }

  ghost function Owed(s: State): nat {
    s.tokens + Sum(s.workers, Holding) + Sum(s.producers, Unposted)
  }

  /** Every pushed request is matched by a token; the two ways to fall out of step cancel. */
  ghost predicate Balanced(s: State) {
    && |s.queue| + s.log.tokenlessPops == Owed(s) + s.log.wastedTokens
    && s.log.wastedTokens <= s.log.tokenlessPops
  }

  // ----- Requests -----

  /** Is x the request of this call, which has neither pushed nor returned? */
  function UnpushedIs(x: Request): ProducerPc -> nat {
    (pc: ProducerPc) => if (pc.ToLock? || pc.ToCheckSize? || pc.ToReject? || pc.ToPush?) && pc.r == x then 1 else 0
  }

  /** Is x the request this worker has popped and neither processed nor skipped? */
  function CarriedIs(x: Request): WorkerPc -> nat {
    (pc: WorkerPc) => if (pc.ToRelease? || pc.ToTest? || pc.ToProcess?) && pc.r == x then 1 else 0
  }

  /** How many calls with argument x are still before their push. */
  ghost function Unpushed(s: State, x: Request): nat {
    Sum(s.producers, UnpushedIs(x))
  }

  /** How many workers hold x, popped but neither processed nor skipped. */
  ghost function Carried(s: State, x: Request): nat {
    Sum(s.workers, CarriedIs(x))
  }

  function Times(x: Request, s: seq<Request>): nat {
    multiset(s)[x]
  }

  /** First in, first out: what was popped, then what waits, is what was pushed. */
  ghost predicate Ordered(s: State) {
    s.log.accepted == s.log.dequeued + s.queue
  }

  /** Every call of append is still inside, accepted or rejected, once. */
  ghost predicate CallsConserved(s: State) {
    forall x ::
      Times(x, s.log.called) == Times(x, s.log.accepted) + Times(x, s.log.rejected) + Unpushed(s, x)
  }

  /** How often x is over and done with: processed, or skipped if it is null. */
  function Served(log: History, x: Request): nat {
    Times(x, log.processed) + if x == NULL then log.skipped else 0
  }

  /** Every popped request is with one worker or served, once, and null is never processed. */
  ghost predicate PopsConserved(s: State) {
    && (forall x :: Times(x, s.log.dequeued) == Served(s.log, x) + Carried(s, x))
    && NULL !in s.log.processed
  }

  ghost predicate Inv(s: State) {
    && Exclusive(s) && Protected(s) && Balanced(s)
    && Ordered(s) && CallsConserved(s) && PopsConserved(s)
  }

  // ----- Every step keeps the invariant -----

  lemma InitHolds(n: nat, m: nat, max: nat)
    ensures Inv(Init(n, m, max))
  {
    var s := Init(n, m, max);
    SumZero(s.workers, Holding);
    SumZero(s.producers, Unposted);
    forall x ensures Unpushed(s, x) == 0 && Carried(s, x) == 0 {
      SumZero(s.producers, UnpushedIs(x));
      SumZero(s.workers, CarriedIs(x));
    }
  }

  lemma AppendProtects(s: State, p: nat)
    requires Exclusive(s) && Protected(s) && Enabled(s, PStep(p))
    ensures Exclusive(AppendNext(s, p)) && Protected(AppendNext(s, p))
  {
    var t := AppendNext(s, p);
    assert t.workers == s.workers;
    assert forall q :: 0 <= q < |t.producers| && q != p ==> t.producers[q] == s.producers[q];
    assert ProducerInside(s.producers[p]) <==> s.mutex == Producer(p);
  }

  lemma RunProtects(s: State, w: nat)
    requires Exclusive(s) && Protected(s) && Enabled(s, WStep(w))
    ensures Exclusive(RunNext(s, w)) && Protected(RunNext(s, w))
  {
    var t := RunNext(s, w);
    assert t.producers == s.producers;
    assert forall v :: 0 <= v < |t.workers| && v != w ==> t.workers[v] == s.workers[v];
    assert WorkerInside(s.workers[w]) <==> s.mutex == Worker(w);
  }

  lemma StepProtects(s: State, e: Event)
    requires Exclusive(s) && Protected(s) && Enabled(s, e)
    ensures Exclusive(Next(s, e)) && Protected(Next(s, e))
  {
    match e
    case Call(_, _) =>
    case PStep(p) => AppendProtects(s, p);
    case WStep(w) => RunProtects(s, w);
    case Spurious(_) =>
  }

  lemma AppendBalances(s: State, p: nat)
    requires Balanced(s) && Enabled(s, PStep(p))
    ensures Balanced(AppendNext(s, p))
  {
    SumUpdate(s.producers, p, AppendNext(s, p).producers[p], Unposted);
  }

  /** One statement of run, seen from the token accounts only. */
  lemma RunTokens(s: State, w: nat)
    requires Enabled(s, WStep(w))
    ensures var t := RunNext(s, w);
            && t.producers == s.producers && t.workers == s.workers[w := t.workers[w]]
            && |t.queue| + t.log.tokenlessPops + s.tokens + Holding(s.workers[w]) + s.log.wastedTokens
               == |s.queue| + s.log.tokenlessPops + t.tokens + Holding(t.workers[w]) + t.log.wastedTokens
            && s.log.tokenlessPops <= t.log.tokenlessPops
            && (t.log.wastedTokens > s.log.wastedTokens ==>
                  s.queue == [] && Holding(s.workers[w]) == 1 && t.log.wastedTokens == s.log.wastedTokens + 1)
  {
  }

  lemma RunBalances(s: State, w: nat)
    requires Balanced(s) && Enabled(s, WStep(w))
    ensures Balanced(RunNext(s, w))
  {
    RunTokens(s, w);
    SumUpdate(s.workers, w, RunNext(s, w).workers[w], Holding);
    SumAtLeast(s.workers, w, Holding);
  }

  lemma StepBalances(s: State, e: Event)
    requires Balanced(s) && Enabled(s, e)
    ensures Balanced(Next(s, e))
  {
    match e
    case Call(p, r) => SumUpdate(s.producers, p, ToLock(r), Unposted);
    case PStep(p) => AppendBalances(s, p);
    case WStep(w) => RunBalances(s, w);
    case Spurious(w) => SumUpdate(s.workers, w, ToAcquire(false), Holding);
  }

  lemma StepKeepsOrder(s: State, e: Event)
    requires Protected(s) && Ordered(s) && Enabled(s, e)
    ensures Ordered(Next(s, e))
  {
    if e.WStep? && s.workers[e.w].ToPop? {
      assert s.queue == [s.queue[0]] + s.queue[1..];
    }
  }

  lemma TimesSnoc(x: Request, s: seq<Request>, r: Request)
    ensures Times(x, s + [r]) == Times(x, s) + if r == x then 1 else 0
  {
  }

  lemma AppendConserves(s: State, p: nat, x: Request)
    requires Enabled(s, PStep(p))
    requires Times(x, s.log.called) == Times(x, s.log.accepted) + Times(x, s.log.rejected) + Unpushed(s, x)
    ensures var t := AppendNext(s, p);
            Times(x, t.log.called) == Times(x, t.log.accepted) + Times(x, t.log.rejected) + Unpushed(t, x)
  {
    var t, pc := AppendNext(s, p), s.producers[p];
    var pc' := t.producers[p];
    assert t.producers == s.producers[p := pc'] && t.log.called == s.log.called;
    SumUpdate(s.producers, p, pc', UnpushedIs(x));
    if pc.ToPush? {
      assert t.log.accepted == s.log.accepted + [pc.r] && t.log.rejected == s.log.rejected;
      TimesSnoc(x, s.log.accepted, pc.r);
    } else if pc.ToReject? {
      assert t.log.rejected == s.log.rejected + [pc.r] && t.log.accepted == s.log.accepted;
      TimesSnoc(x, s.log.rejected, pc.r);
    } else {
      assert t.log == s.log && UnpushedIs(x)(pc') == UnpushedIs(x)(pc);
    }
  }

  /** Where a worker's request is counted does not change, except when it pops, tests or has processed. */
  lemma RunElsewhere(s: State, w: nat, x: Request)
    requires Enabled(s, WStep(w)) && !s.workers[w].ToPop? && !s.workers[w].ToTest? && !s.workers[w].ToProcess?
    ensures var t := RunNext(s, w);
            && t.log.dequeued == s.log.dequeued && Served(t.log, x) == Served(s.log, x)
            && CarriedIs(x)(t.workers[w]) == CarriedIs(x)(s.workers[w])
  {
  }

  /** One statement of run, seen from the accounts of request x only. */
  lemma RunRequest(s: State, w: nat, x: Request)
    requires Enabled(s, WStep(w))
    ensures var t := RunNext(s, w);
            Times(x, t.log.dequeued) + Served(s.log, x) + CarriedIs(x)(s.workers[w])
            == Times(x, s.log.dequeued) + Served(t.log, x) + CarriedIs(x)(t.workers[w])
  {
    match s.workers[w]
    case ToPop(r, _) => TimesSnoc(x, s.log.dequeued, r);
    case ToProcess(r) => TimesSnoc(x, s.log.processed, r);
    case ToTest(_) =>
    case _ => RunElsewhere(s, w, x);
  }

  lemma RunConserves(s: State, w: nat, x: Request)
    requires Enabled(s, WStep(w))
    requires Times(x, s.log.dequeued) == Served(s.log, x) + Carried(s, x)
    ensures var t := RunNext(s, w); Times(x, t.log.dequeued) == Served(t.log, x) + Carried(t, x)
  {
    RunRequest(s, w, x);
    assert RunNext(s, w).workers == s.workers[w := RunNext(s, w).workers[w]];
    SumUpdate(s.workers, w, RunNext(s, w).workers[w], CarriedIs(x));
  }

  lemma StepConservesCalls(s: State, e: Event)
    requires CallsConserved(s) && Enabled(s, e)
    ensures CallsConserved(Next(s, e))
  {
    var t := Next(s, e);
    forall x ensures Times(x, t.log.called) == Times(x, t.log.accepted) + Times(x, t.log.rejected) + Unpushed(t, x) {
      if e.PStep? {
        AppendConserves(s, e.p, x);
      } else if e.Call? {
        SumUpdate(s.producers, e.p, ToLock(e.r), UnpushedIs(x));
        TimesSnoc(x, s.log.called, e.r);
      } else {
        assert t.producers == s.producers && Unpushed(t, x) == Unpushed(s, x);
      }
    }
  }

  lemma NullStaysUnprocessed(s: State, e: Event)
    requires Protected(s) && NULL !in s.log.processed && Enabled(s, e)
    ensures NULL !in Next(s, e).log.processed
  {
  }

  /** One event, seen from the accounts of request x only. */
  lemma StepConservesPop(s: State, e: Event, x: Request)
    requires Enabled(s, e) && Times(x, s.log.dequeued) == Served(s.log, x) + Carried(s, x)
    ensures var t := Next(s, e); Times(x, t.log.dequeued) == Served(t.log, x) + Carried(t, x)
  {
    match e
    case WStep(w) => RunConserves(s, w, x);
    case Spurious(w) => SumUpdate(s.workers, w, ToAcquire(false), CarriedIs(x));
    case _ => assert Next(s, e).workers == s.workers;
  }

  lemma StepConservesPops(s: State, e: Event)
    requires Protected(s) && PopsConserved(s) && Enabled(s, e)
    ensures PopsConserved(Next(s, e))
  {
    NullStaysUnprocessed(s, e);
    var t := Next(s, e);
    forall x ensures Times(x, t.log.dequeued) == Served(t.log, x) + Carried(t, x) {
      StepConservesPop(s, e, x);
    }
  }

  lemma {:induction false} RunKeepsInv(s: State, es: seq<Event>)
    requires Inv(s) && Legal(s, es)
    ensures Inv(Exec(s, es))
    decreases es
  {
    if es == [] {
    } else {
      StepProtects(s, es[0]);
      StepBalances(s, es[0]);
      StepKeepsOrder(s, es[0]);
      StepConservesCalls(s, es[0]);
      StepConservesPops(s, es[0]);
      RunKeepsInv(Next(s, es[0]), es[1..]);
    }
  }
}
