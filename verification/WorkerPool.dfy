/**
The worker pool of Http/threadpool.h, one atomic statement at a time.

Every producer runs `append` and every worker runs `run`; each lock, test, push, unlock, post, wait,
front, pop and process() is one event. The semaphore starts at 0 (Http/locker.h). A wait normally
takes a token; since `run` ignores the result of the wait, it may also return without one.
*/
module WorkerPool {

  /** The address of a request; `append` accepts null and `run` skips it. */
  type Request = int
  const NULL: Request := 0

  /** What a producer executes next inside `append`. */
  datatype ProducerPc =
    | Idle
    | ToLock(r: Request)
    | ToCheckSize(r: Request)
    | ToReject(r: Request)
    | ToPush(r: Request)
    | ToUnlock(r: Request)
    | ToPost(r: Request)

  /** What a worker executes next inside `run`. `token` tells whether its wait took a token. */
  datatype WorkerPc =
    | ToWait
    | ToAcquire(token: bool)
    | ToCheckEmpty(token: bool)
    | ToGiveUp
    | ToFront(token: bool)
    | ToPop(r: Request, token: bool)
    | ToRelease(r: Request)
    | ToTest(r: Request)
    | ToProcess(r: Request)

  datatype Owner = Free | Producer(p: nat) | Worker(w: nat)

  /** The records of what happened: they never influence a step. */
  datatype History = History(
    called: seq<Request>,     // arguments of append, in call order
    accepted: seq<Request>,   // in push order
    rejected: seq<Request>,   // append returned false
    dequeued: seq<Request>,   // in pop order
    processed: seq<Request>,  // process() returned
    skipped: nat,             // nulls passed over without process()
    tokenlessPops: nat,       // pops by workers whose wait took no token
    wastedTokens: nat)        // tokens spent on finding the queue empty

  datatype State = State(
    maxRequests: nat,
    queue: seq<Request>,
    tokens: nat,
    mutex: Owner,
    producers: seq<ProducerPc>,
    workers: seq<WorkerPc>,
    log: History)

  datatype Event =
    | Call(p: nat, r: Request)   // producer p calls append(r)
    | PStep(p: nat)              // producer p executes its next statement
    | WStep(w: nat)              // worker w executes its next statement
    | Spurious(w: nat)           // worker w's wait returns without a token

  const EMPTY_HISTORY := History([], [], [], [], [], 0, 0, 0)

  function Init(producers: nat, workers: nat, maxRequests: nat): State
  {
    State(maxRequests, [], 0, Free, seq(producers, _ => Idle), seq(workers, _ => ToWait), EMPTY_HISTORY)
  }

  /**
  Whether the event can happen: locks need a free mutex, waits a token. Taking the front of an empty
  list has no meaning, so it is not enabled either; `Progress` shows that this never stops a worker.
  */
  predicate Enabled(s: State, e: Event)
  {
    match e
    case Call(p, r) => p < |s.producers| && s.producers[p].Idle?
    case PStep(p) => p < |s.producers| && !s.producers[p].Idle? && (s.producers[p].ToLock? ==> s.mutex.Free?)
    case WStep(w) => w < |s.workers| && (s.workers[w].ToWait? ==> s.tokens > 0)
                     && (s.workers[w].ToAcquire? ==> s.mutex.Free?)
                     && (s.workers[w].ToFront? || s.workers[w].ToPop? ==> s.queue != [])
    case Spurious(w) => w < |s.workers| && s.workers[w].ToWait?
  }

  function AppendNext(s: State, p: nat): State
    requires Enabled(s, PStep(p))
  {
    var log := s.log;
    match s.producers[p]
    case ToLock(r) =>
      s.(mutex := Producer(p), producers := s.producers[p := ToCheckSize(r)])
    case ToCheckSize(r) =>
      s.(producers := s.producers[p := if |s.queue| > s.maxRequests then ToReject(r) else ToPush(r)])
    case ToReject(r) =>
      s.(mutex := Free, producers := s.producers[p := Idle], log := log.(rejected := log.rejected + [r]))
    case ToPush(r) =>
      s.(queue := s.queue + [r], producers := s.producers[p := ToUnlock(r)],
         log := log.(accepted := log.accepted + [r]))
    case ToUnlock(r) =>
      s.(mutex := Free, producers := s.producers[p := ToPost(r)])
    case ToPost(r) =>
      s.(tokens := s.tokens + 1, producers := s.producers[p := Idle])
  }

  function RunNext(s: State, w: nat): State
    requires Enabled(s, WStep(w))
  {
    var log := s.log;
    match s.workers[w]
    case ToWait =>
      s.(tokens := s.tokens - 1, workers := s.workers[w := ToAcquire(true)])
    case ToAcquire(token) =>
      s.(mutex := Worker(w), workers := s.workers[w := ToCheckEmpty(token)])
    case ToCheckEmpty(token) =>
      if s.queue == [] then
        s.(workers := s.workers[w := ToGiveUp],
           log := log.(wastedTokens := log.wastedTokens + if token then 1 else 0))
      else
        s.(workers := s.workers[w := ToFront(token)])
    case ToGiveUp =>
      s.(mutex := Free, workers := s.workers[w := ToWait])
    case ToFront(token) =>
      s.(workers := s.workers[w := ToPop(s.queue[0], token)])
    case ToPop(r, token) =>
      s.(queue := s.queue[1..], workers := s.workers[w := ToRelease(r)],
         log := log.(dequeued := log.dequeued + [r],
                     tokenlessPops := log.tokenlessPops + if token then 0 else 1))
    case ToRelease(r) =>
      s.(mutex := Free, workers := s.workers[w := ToTest(r)])
    case ToTest(r) =>
      if r == NULL then
        s.(workers := s.workers[w := ToWait], log := log.(skipped := log.skipped + 1))
      else
        s.(workers := s.workers[w := ToProcess(r)])
    case ToProcess(r) =>
      s.(workers := s.workers[w := ToWait], log := log.(processed := log.processed + [r]))
  }

  function Next(s: State, e: Event): State
    requires Enabled(s, e)
  {
    match e
    case Call(p, r) =>
      s.(producers := s.producers[p := ToLock(r)], log := s.log.(called := s.log.called + [r]))
    case PStep(p) => AppendNext(s, p)
    case WStep(w) => RunNext(s, w)
    case Spurious(w) => s.(workers := s.workers[w := ToAcquire(false)])
  }

  /** A run is a sequence of events, each enabled when it happens. */
  predicate Legal(s: State, es: seq<Event>)
    decreases es
  {
    es == [] || (Enabled(s, es[0]) && Legal(Next(s, es[0]), es[1..]))
  }

  function Exec(s: State, es: seq<Event>): State
    requires Legal(s, es)
    decreases es
  {
    if es == [] then s else Exec(Next(s, es[0]), es[1..])
  }

  /** The pool object and the threads running its methods, updated in place. */
  class ThreadPool {
    const maxRequests: nat
    var workqueue: seq<Request>
    var queuestat: nat
    var queuelocker: Owner
    var producers: seq<ProducerPc>
    var workers: seq<WorkerPc>
    var log: History

    ghost function Contents(): State
      reads this
    {
      State(maxRequests, workqueue, queuestat, queuelocker, producers, workers, log)
    }

    constructor (producerNumber: nat, threadNumber: nat, maxRequests: nat)
      requires threadNumber > 0 && maxRequests > 0
      ensures Contents() == Init(producerNumber, threadNumber, maxRequests)
    {
      this.maxRequests := maxRequests;
      workqueue, queuestat, queuelocker := [], 0, Free;
      producers, workers := seq(producerNumber, _ => Idle), seq(threadNumber, _ => ToWait);
      log := EMPTY_HISTORY;
    }

    /**
    The checks of the constructor, which throws where this returns null: a pool exists exactly for positive
    sizes with every thread created and detached. `creates` and `detaches` are the results of the two calls.
    */
    static method Create(producerNumber: nat, threadNumber: int, maxRequests: int, creates: nat -> bool,
                         detaches: nat -> bool) returns (pool: ThreadPool?)
      ensures pool != null <==> threadNumber > 0 && maxRequests > 0
                                && forall i: nat :: i < threadNumber ==> creates(i) && detaches(i)
      ensures pool != null ==> fresh(pool) && pool.Contents() == Init(producerNumber, threadNumber, maxRequests)
    {
      if threadNumber <= 0 || maxRequests <= 0 {
        return null;
      }
      for i := 0 to threadNumber
        invariant forall k: nat :: k < i ==> creates(k) && detaches(k)
      {
        if !creates(i) || !detaches(i) {
          return null;
        }
      }
      pool := new ThreadPool(producerNumber, threadNumber, maxRequests);
    }

    method BeginAppend(p: nat, r: Request)
      requires Enabled(Contents(), Call(p, r))
      modifies this
      ensures Contents() == Next(old(Contents()), Call(p, r))
    {
      producers := producers[p := ToLock(r)];
      log := log.(called := log.called + [r]);
    }

    /** One statement of append, executed by producer p. */
    method AppendStep(p: nat)
      requires Enabled(Contents(), PStep(p))
      modifies this
      ensures Contents() == Next(old(Contents()), PStep(p))
    {
      match producers[p] {
        case ToLock(r) =>
          queuelocker := Producer(p);
          producers := producers[p := ToCheckSize(r)];
        case ToCheckSize(r) =>
          if |workqueue| > maxRequests {
            producers := producers[p := ToReject(r)];
          } else {
            producers := producers[p := ToPush(r)];
          }
        case ToReject(r) =>
          queuelocker := Free;
          log := log.(rejected := log.rejected + [r]);
          producers := producers[p := Idle];
        case ToPush(r) =>
          workqueue := workqueue + [r];
          log := log.(accepted := log.accepted + [r]);
          producers := producers[p := ToUnlock(r)];
        case ToUnlock(r) =>
          queuelocker := Free;
          producers := producers[p := ToPost(r)];
        case ToPost(r) =>
          queuestat := queuestat + 1;
          producers := producers[p := Idle];
      }
    }

    /** One statement of run, executed by worker w. */
    method RunStep(w: nat)
      requires Enabled(Contents(), WStep(w))
      modifies this
      ensures Contents() == Next(old(Contents()), WStep(w))
    {
      match workers[w] {
        case ToWait =>
          queuestat := queuestat - 1;
          workers := workers[w := ToAcquire(true)];
        case ToAcquire(token) =>
          queuelocker := Worker(w);
          workers := workers[w := ToCheckEmpty(token)];
        case ToCheckEmpty(token) =>
          if workqueue == [] {
            if token {
              log := log.(wastedTokens := log.wastedTokens + 1);
            }
            workers := workers[w := ToGiveUp];
          } else {
            workers := workers[w := ToFront(token)];
          }
        case ToGiveUp =>
          queuelocker := Free;
          workers := workers[w := ToWait];
        case ToFront(token) =>
          workers := workers[w := ToPop(workqueue[0], token)];
        case ToPop(r, token) =>
          workqueue := workqueue[1..];
          log := log.(dequeued := log.dequeued + [r]);
          if !token {
            log := log.(tokenlessPops := log.tokenlessPops + 1);
          }
          workers := workers[w := ToRelease(r)];
        case ToRelease(r) =>
          queuelocker := Free;
          workers := workers[w := ToTest(r)];
        case ToTest(r) =>
          if r == NULL {
            log := log.(skipped := log.skipped + 1);
            workers := workers[w := ToWait];
          } else {
            workers := workers[w := ToProcess(r)];
          }
        case ToProcess(r) =>
          log := log.(processed := log.processed + [r]);
          workers := workers[w := ToWait];
      }
    }

    /** The wait of worker w returns without a token. */
    method SpuriousWait(w: nat)
      requires Enabled(Contents(), Spurious(w))
      modifies this
      ensures Contents() == Next(old(Contents()), Spurious(w))
    {
      workers := workers[w := ToAcquire(false)];
    }

    /** A whole call of append with nobody else running: the branch is decided by the size alone. */
    method Append(p: nat, request: Request) returns (ok: bool)
      requires Enabled(Contents(), Call(p, request)) && queuelocker.Free?
      modifies this
      ensures ok <==> |old(workqueue)| <= maxRequests
      ensures workqueue == if ok then old(workqueue) + [request] else old(workqueue)
      ensures |workqueue| <= maxRequests <==> |old(workqueue)| < maxRequests
      ensures queuestat == if ok then old(queuestat) + 1 else old(queuestat)
      ensures queuelocker.Free? && producers == old(producers) && workers == old(workers)
      ensures log.accepted == if ok then old(log.accepted) + [request] else old(log.accepted)
      ensures log.rejected == if ok then old(log.rejected) else old(log.rejected) + [request]
      ensures log.dequeued == old(log.dequeued) && log.processed == old(log.processed) && log.skipped == old(log.skipped)
    {
      BeginAppend(p, request);
      AppendStep(p);  // lock
      AppendStep(p);  // compare the size
      if producers[p].ToReject? {
        AppendStep(p);  // unlock
        return false;
      }
      AppendStep(p);  // push_back
      AppendStep(p);  // unlock
      AppendStep(p);  // post
      return true;
    }
  }
}
