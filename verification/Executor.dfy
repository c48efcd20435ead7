/** The executor with a dispatch queue: one worker thread, any number of client threads that push, flush
    and terminate. Every access to a shared field is one step of its thread, so the claims below range
    over every interleaving. */
module Executor {

  datatype Job = Job(id: nat)

  type ThreadId = nat

  // ---------------------------------------------------------------- State

  /** The plain mutex around the queue. */
  datatype ExecutorLock = Free | ByWorker | ByClient(client: ThreadId)

  /** The recursive mutex that keeps producers out. */
  datatype EnqueueLock = Unheld | Held(owner: ThreadId, depth: nat)

  /** Where the worker is in its loop. `Sleep` is the blocked condition variable; it may wake at any time. */
  datatype WorkerPc =
    | Loop | Lock | Wait | Sleep | Check | Move | Unlock
    | Test | Running(next: nat) | ClearBatch
    | Flag | FlagLock | Reset | Fulfil | Release
    | Clear | Done

  datatype FlushStage = Enter | Acquire | Raise | Renew | Let | Future | Await | Retest | Leave

  /** The local variables of one call to flush. `nested` tells a call made by terminate, `round` counts
      the turns of its loop, `promise` is the future it waits on. `settled` is history: whether the worker
      still had to look at the queue, or the queue was empty, when the last round raised the flag. */
  datatype Flush = Flush(nested: bool, round: nat, settled: bool, promise: nat, timedOut: bool)

  /** Where a client is in a call. In terminate `gaveUp` is history: whether no flush was asked for, or it timed out. */
  datatype ClientPc =
    | Idle
    | PushEnter(job: Job) | PushTest(job: Job) | PushLock(job: Job) | PushAppend(job: Job) | PushUnlock | PushLeave
    | Flushing(stage: FlushStage, call: Flush)
    | TermEnter(flushJobs: bool) | TermLock(gaveUp: bool) | TermClear(gaveUp: bool) | TermSet(gaveUp: bool)
    | TermUnlock(gaveUp: bool) | TermJoin(gaveUp: bool) | TermLeave(gaveUp: bool)

  /** The fields of the executor and the locals of its worker. `promises[k]` counts how often the k-th
      promise was fulfilled; the last one is the current promise. `accepted`, `executed` and `discarded`
      are history. */
  datatype Core = Core(
    shouldTerminate: bool,
    flushingJobs: bool,
    promises: seq<nat>,
    jobs: seq<Job>,
    executorLock: ExecutorLock,
    worker: WorkerPc,
    batch: seq<Job>,
    accepted: seq<Job>,
    executed: seq<Job>,
    discarded: seq<Job>)

  datatype State = State(core: Core, enqueueLock: EnqueueLock, clients: map<ThreadId, ClientPc>)

  const Start := Core(false, false, [0], [], Free, Loop, [], [], [], [])

  ghost predicate Init(s: State) {
    && s.core == Start
    && s.enqueueLock == Unheld
    && (forall t :: t in s.clients ==> s.clients[t] == Idle)
  }

  // ---------------------------------------------------------------- Steps of the worker

  ghost predicate WorkerStep(c: Core, c': Core) {
    match c.worker
    case Loop => c' == c.(worker := if c.shouldTerminate then Clear else Lock)
    case Lock => c.executorLock == Free && c' == c.(executorLock := ByWorker, worker := Wait)
    case Wait =>
      if c.shouldTerminate || c.jobs != [] || c.flushingJobs then c' == c.(worker := Check)
      else c' == c.(executorLock := Free, worker := Sleep)
    case Sleep => c.executorLock == Free && c' == c.(executorLock := ByWorker, worker := Wait)
    case Check => c' == c.(worker := if !c.shouldTerminate && c.jobs != [] then Move else Unlock)
    case Move =>
      if c.jobs != [] then c' == c.(batch := c.batch + [c.jobs[0]], jobs := c.jobs[1..])
      else c' == c.(worker := Unlock)
    case Unlock => c' == c.(executorLock := Free, worker := Test)
    case Test => c' == c.(worker := if !c.shouldTerminate && c.batch != [] then Running(0) else Flag)
    case Running(next) =>
      if next < |c.batch| then c' == c.(executed := c.executed + [c.batch[next]], worker := Running(next + 1))
      else c' == c.(worker := ClearBatch)
    case ClearBatch => c' == c.(batch := [], worker := Flag)
    case Flag => c' == c.(worker := if c.flushingJobs then FlagLock else Loop)
    case FlagLock => c.executorLock == Free && c' == c.(executorLock := ByWorker, worker := Reset)
    case Reset => c' == c.(flushingJobs := false, worker := Fulfil)
    case Fulfil => c' == c.(promises := Fulfilled(c.promises), worker := Release)
    case Release => c' == c.(executorLock := Free, worker := Loop)
    case Clear => c' == c.(jobs := [], discarded := c.jobs + c.discarded, worker := Done)
    case Done => false
  }

  function Fulfilled(promises: seq<nat>): seq<nat> {
    if promises == [] then [] else promises[|promises| - 1 := promises[|promises| - 1] + 1]
  }

  // ---------------------------------------------------------------- Steps of a client

  ghost predicate MayEnter(l: EnqueueLock, t: ThreadId) {
    l == Unheld || l.owner == t
  }

  function Entered(l: EnqueueLock, t: ThreadId): EnqueueLock {
    Held(t, if l.Held? then l.depth + 1 else 1)
  }

  function Left(l: EnqueueLock): EnqueueLock {
    if l.Held? && l.depth > 1 then l.(depth := l.depth - 1) else Unheld
  }

  /** Outside the locks: a thread begins a call. */
  ghost predicate Begins(pc: ClientPc) {
    || pc.PushEnter?
    || pc == Flushing(Enter, Flush(false, 1, false, 0, false))
    || pc.TermEnter?
  }

  /** The point behind the lock_guard on the enqueue lock. */
  function Entering(pc: ClientPc): ClientPc {
    match pc
    case PushEnter(job) => PushTest(job)
    case TermEnter(flushJobs) =>
      if flushJobs then Flushing(Enter, Flush(true, 1, false, 0, false)) else TermLock(!flushJobs)
    case Flushing(Enter, f) => Flushing(Acquire, f)
    case _ => pc
  }

  /** The point behind the end of the scope of that lock_guard. */
  function Leaving(pc: ClientPc): ClientPc {
    if pc.Flushing? && pc.call.nested then TermLock(pc.call.timedOut) else Idle
  }

  ghost predicate AtEntry(pc: ClientPc) {
    pc.PushEnter? || pc.TermEnter? || (pc.Flushing? && pc.stage.Enter?)
  }

  ghost predicate AtExit(pc: ClientPc) {
    pc.PushLeave? || pc.TermLeave? || (pc.Flushing? && pc.stage.Leave?)
  }

  /** Inside the enqueue lock: thread t at pc acts on the executor. */
  ghost predicate InnerStep(c: Core, pc: ClientPc, t: ThreadId, c': Core, pc': ClientPc) {
    match pc
    case PushTest(job) => c' == c && pc' == if c.shouldTerminate then PushLeave else PushLock(job)
    case PushLock(job) => c.executorLock == Free && c' == c.(executorLock := ByClient(t)) && pc' == PushAppend(job)
    case PushAppend(job) => c' == c.(jobs := c.jobs + [job], accepted := c.accepted + [job]) && pc' == PushUnlock
    case PushUnlock => c' == c.(executorLock := Free) && pc' == PushLeave
    case Flushing(stage, f) => FlushStep(c, stage, f, t, c', pc')
    case TermLock(gaveUp) =>
      c.executorLock == Free && c' == c.(executorLock := ByClient(t)) && pc' == TermClear(gaveUp)
    case TermClear(gaveUp) => c' == c.(jobs := [], discarded := c.jobs + c.discarded) && pc' == TermSet(gaveUp)
    case TermSet(gaveUp) => c' == c.(shouldTerminate := true) && pc' == TermUnlock(gaveUp)
    case TermUnlock(gaveUp) => c' == c.(executorLock := Free) && pc' == TermJoin(gaveUp)
    case TermJoin(gaveUp) => c.worker == Done && c' == c && pc' == TermLeave(gaveUp)
    case _ => false
  }

  ghost predicate FlushStep(c: Core, stage: FlushStage, f: Flush, t: ThreadId, c': Core, pc': ClientPc) {
    match stage
    case Acquire => c.executorLock == Free && c' == c.(executorLock := ByClient(t)) && pc' == Flushing(Raise, f)
    case Raise => c' == c.(flushingJobs := true) && pc' == Flushing(Renew, f.(settled := Settled(c)))
    case Renew => c' == c.(promises := c.promises + [0]) && pc' == Flushing(Let, f)
    case Let => c' == c.(executorLock := Free) && pc' == Flushing(Future, f)
    case Future => c' == c && |c.promises| > 0 && pc' == Flushing(Await, f.(promise := |c.promises| - 1))
    case Await =>
      && c' == c
      && (|| (f.promise < |c.promises| && c.promises[f.promise] > 0 && pc' == Flushing(Retest, f))
          || pc' == Flushing(Leave, f.(timedOut := true)))
    case Retest =>
      && c' == c
      && pc' == if c.jobs != [] then Flushing(Acquire, f.(round := f.round + 1)) else Flushing(Leave, f)
    case _ => false
  }

  ghost predicate ClientStep(s: State, s': State, t: ThreadId)
    requires t in s.clients
  {
    && t in s'.clients
    && s'.clients == s.clients[t := s'.clients[t]]
    && var pc, pc' := s.clients[t], s'.clients[t];
       if pc.Idle? then
         Begins(pc') && s'.core == s.core && s'.enqueueLock == s.enqueueLock
       else if AtEntry(pc) then
         && MayEnter(s.enqueueLock, t) && pc' == Entering(pc)
         && s'.core == s.core && s'.enqueueLock == Entered(s.enqueueLock, t)
       else if AtExit(pc) then
         pc' == Leaving(pc) && s'.core == s.core && s'.enqueueLock == Left(s.enqueueLock)
       else
         InnerStep(s.core, pc, t, s'.core, pc') && s'.enqueueLock == s.enqueueLock
  }

  ghost predicate Step(s: State, s': State) {
    || (WorkerStep(s.core, s'.core) && s' == s.(core := s'.core))
    || (exists t :: t in s.clients && ClientStep(s, s', t))
  }

  ghost predicate IsPath(path: seq<State>) {
    path != [] && forall i :: 0 <= i < |path| - 1 ==> Step(path[i], path[i + 1])
  }

  ghost predicate IsRun(run: seq<State>) {
    IsPath(run) && Init(run[0])
  }

  // ---------------------------------------------------------------- What the states mean

  /** The worker is past its look at the queue and has not fulfilled a promise since: what it does before
      it next fulfils one takes no further job. */
  predicate Taken(w: WorkerPc) {
    w.Unlock? || w.Test? || w.Running? || w.ClearBatch? || w.Flag? || w.FlagLock? || w.Reset? || w.Fulfil?
  }

  predicate Settled(c: Core) {
    Taken(c.worker) ==> c.jobs == []
  }

  /** The jobs the worker has taken and not yet run. */
  function Pending(c: Core): seq<Job> {
    if c.worker.Running? && c.worker.next <= |c.batch| then c.batch[c.worker.next..]
    else if c.worker.ClearBatch? then []
    else c.batch
  }

  predicate WorkerHolds(w: WorkerPc) {
    w.Wait? || w.Check? || w.Move? || w.Unlock? || w.Reset? || w.Fulfil? || w.Release?
  }

  predicate ClientHolds(pc: ClientPc) {
    || pc.PushAppend? || pc.PushUnlock? || pc.TermClear? || pc.TermSet? || pc.TermUnlock?
    || (pc.Flushing? && (pc.stage.Raise? || pc.stage.Renew? || pc.stage.Let?))
  }

  /** How often a client at pc has locked the enqueue lock. */
  function EnqueueDepth(pc: ClientPc): nat {
    match pc
    case Idle => 0
    case PushEnter(_) => 0
    case TermEnter(_) => 0
    case Flushing(stage, f) => (if f.nested then 1 else 0) + (if stage.Enter? then 0 else 1)
    case _ => 1
  }

  /** The point of the thread inside the enqueue lock, `Idle` when there is none. */
  function Owner(s: State): ClientPc {
    if s.enqueueLock.Held? && s.enqueueLock.owner in s.clients then s.clients[s.enqueueLock.owner] else Idle
  }

  // ---------------------------------------------------------------- The invariant

  /** Only the thread inside the enqueue lock is inside any lock. */
  ghost predicate EnqueueInv(s: State) {
    && (s.enqueueLock.Held? ==> s.enqueueLock.owner in s.clients && s.enqueueLock.depth > 0)
    && (forall t :: t in s.clients ==>
          EnqueueDepth(s.clients[t]) ==
          if s.enqueueLock.Held? && s.enqueueLock.owner == t then s.enqueueLock.depth else 0)
    && (forall t :: t in s.clients && s.clients[t].Flushing? && s.clients[t].stage.Enter? ==>
          FirstRound(s.clients[t].call))
  }

  ghost predicate FirstRound(f: Flush) {
    f.round == 1 && !f.settled && !f.timedOut
  }

  ghost predicate ExecutorLockInv(c: Core, pc: ClientPc) {
    && (c.executorLock == ByWorker <==> WorkerHolds(c.worker))
    && (c.executorLock.ByClient? <==> ClientHolds(pc))
  }

  ghost predicate BatchInv(c: Core) {
    && (c.worker.Running? ==> c.worker.next <= |c.batch|)
    && (c.worker.Lock? || c.worker.Wait? || c.worker.Sleep? || c.worker.Check? ==> c.batch == [])
    && ((|| c.worker.Flag? || c.worker.FlagLock? || c.worker.Reset? || c.worker.Fulfil? || c.worker.Release?
         || c.worker.Loop?) ==> c.batch == [] || c.shouldTerminate)
    && (c.worker.Clear? || c.worker.Done? ==> c.shouldTerminate)
  }

  ghost predicate ConservationInv(c: Core) {
    c.accepted == c.executed + Pending(c) + c.jobs + c.discarded
  }

  ghost predicate TerminationInv(c: Core, pc: ClientPc) {
    && (c.shouldTerminate || pc.TermSet? ==> c.jobs == [])
    && (!c.shouldTerminate && !pc.TermSet? ==> c.discarded == [])
    && (c.shouldTerminate ==> c.worker.Done? || pc.TermUnlock? || pc.TermJoin?)
    && (c.shouldTerminate ==> !pc.PushLock? && !pc.PushAppend?)
    && (pc.TermUnlock? || pc.TermJoin? ==> c.shouldTerminate)
    && (HasFlushed(pc) ==> c.jobs == [] && c.discarded == [])
  }

  /** In a terminate whose flush has returned in time. */
  predicate HasFlushed(pc: ClientPc) {
    InTerminate(pc) && !pc.gaveUp
  }

  predicate InTerminate(pc: ClientPc) {
    pc.TermLock? || pc.TermClear? || pc.TermSet? || pc.TermUnlock? || pc.TermJoin? || pc.TermLeave?
  }

  /** The current promise has been fulfilled. */
  ghost predicate Kept(c: Core) {
    c.promises != [] && c.promises[|c.promises| - 1] == 1
  }

  ghost predicate CountInv(c: Core) {
    c.promises != [] && forall k :: 0 <= k < |c.promises| ==> c.promises[k] <= 1
  }

  ghost predicate PromiseInv(c: Core, pc: ClientPc) {
    && (c.flushingJobs && !(pc.Flushing? && pc.stage.Renew?) ==> !Kept(c))
    && (c.worker.FlagLock? || c.worker.Reset? ==> c.flushingJobs)
    && (c.worker.Fulfil? ==> !c.flushingJobs && !Kept(c))
    && (pc.Flushing? && (pc.stage.Await? || pc.stage.Retest?) ==> pc.call.promise == |c.promises| - 1)
    && (pc.Flushing? && (pc.stage.Retest? || (pc.stage.Leave? && !pc.call.timedOut)) ==> Kept(c))
    && (pc.Flushing? && pc.stage.Renew? ==> c.flushingJobs)
    && (pc.Flushing? && Awaiting(pc.stage) && !Kept(c) ==> c.flushingJobs || c.worker.Fulfil?)
  }

  /** From the new promise to the end of the wait for it. */
  predicate Awaiting(stage: FlushStage) {
    stage.Let? || stage.Future? || stage.Await?
  }

  predicate Raised(stage: FlushStage) {
    stage.Let? || stage.Future? || stage.Await? || stage.Retest? || stage.Leave?
  }

  /** Facts about the flush inside the enqueue lock. */
  ghost predicate FlushInv(c: Core, pc: ClientPc) {
    pc.Flushing? && !pc.stage.Enter? ==>
      var f, stage := pc.call, pc.stage;
      && 1 <= f.round <= 2
      && (f.timedOut ==> stage.Leave?)
      && (f.round == 2 ==> Settled(c))
      && (f.round == 2 && (stage.Renew? || Raised(stage)) ==> f.settled)
      && (f.settled && (stage.Renew? || Raised(stage)) ==> Settled(c))
      && (Raised(stage) && Kept(c) ==> Settled(c) && !c.shouldTerminate)
      && (Raised(stage) && f.settled && Kept(c) ==> c.jobs == [] && Pending(c) == [])
      && (stage.Leave? && !f.timedOut ==> c.jobs == [])
  }

  ghost predicate CoreInv(c: Core, pc: ClientPc) {
    && ExecutorLockInv(c, pc) && BatchInv(c) && ConservationInv(c)
    && TerminationInv(c, pc) && CountInv(c) && PromiseInv(c, pc) && FlushInv(c, pc)
  }

  ghost predicate Inv(s: State) {
    EnqueueInv(s) && CoreInv(s.core, Owner(s))
  }

  // ---------------------------------------------------------------- The worker keeps it

  lemma WorkerLocks(c: Core, c': Core, pc: ClientPc)
    requires ExecutorLockInv(c, pc) && WorkerStep(c, c')
    ensures ExecutorLockInv(c', pc)
  {
  }

  lemma WorkerBatch(c: Core, c': Core)
    requires BatchInv(c) && WorkerStep(c, c')
    ensures BatchInv(c')
  {
  }

  lemma WorkerTermination(c: Core, c': Core, pc: ClientPc)
    requires BatchInv(c) && TerminationInv(c, pc) && WorkerStep(c, c')
    ensures TerminationInv(c', pc)
  {
  }

  lemma WorkerPromise(c: Core, c': Core, pc: ClientPc)
    requires ExecutorLockInv(c, pc) && PromiseInv(c, pc) && CountInv(c) && WorkerStep(c, c')
    ensures PromiseInv(c', pc)
  {
  }

  lemma WorkerCount(c: Core, c': Core, pc: ClientPc)
    requires CountInv(c) && PromiseInv(c, pc) && WorkerStep(c, c')
    ensures CountInv(c')
  {
  }

  lemma WorkerConserves(c: Core, c': Core, pc: ClientPc)
    requires BatchInv(c) && TerminationInv(c, pc) && ConservationInv(c) && WorkerStep(c, c')
    ensures ConservationInv(c')
  {
    if c.worker.Move? {
      MoveConserves(c, c');
    } else if c.worker.Running? {
      RunningConserves(c, c');
    } else if c.worker.Clear? {
      assert c.jobs == [] && c'.discarded == c.discarded;
    } else {
      QuietConserves(c, c');
    }
  }

  lemma QuietConserves(c: Core, c': Core)
    requires WorkerStep(c, c') && !c.worker.Move? && !c.worker.Running? && !c.worker.Clear?
    ensures Pending(c') == Pending(c)
    ensures c'.accepted == c.accepted && c'.executed == c.executed && c'.jobs == c.jobs && c'.discarded == c.discarded
  {
  }

  lemma MoveConserves(c: Core, c': Core)
    requires ConservationInv(c) && c.worker.Move? && WorkerStep(c, c')
    ensures ConservationInv(c')
  {
    if c.jobs != [] {
      assert c.jobs == [c.jobs[0]] + c.jobs[1..];
    }
  }

  lemma RunningConserves(c: Core, c': Core)
    requires BatchInv(c) && ConservationInv(c) && c.worker.Running? && WorkerStep(c, c')
    ensures ConservationInv(c')
  {
    var next := c.worker.next;
    if next < |c.batch| {
      assert c.batch[next..] == [c.batch[next]] + c.batch[next + 1..];
      RunsNext(c, c', c.batch[next], c.batch[next + 1..]);
    } else {
      assert c.batch[next..] == [] && Pending(c') == [];
      SamePending(c, c');
    }
  }

  lemma SamePending(c: Core, c': Core)
    requires Pending(c') == Pending(c) && c'.executed == c.executed
    requires c'.accepted == c.accepted && c'.jobs == c.jobs && c'.discarded == c.discarded
    requires ConservationInv(c)
    ensures ConservationInv(c')
  {
    hide Pending;
  }

  lemma RunsNext(c: Core, c': Core, job: Job, rest: seq<Job>)
    requires Pending(c) == [job] + rest && Pending(c') == rest && c'.executed == c.executed + [job]
    requires c'.accepted == c.accepted && c'.jobs == c.jobs && c'.discarded == c.discarded
    requires ConservationInv(c)
    ensures ConservationInv(c')
  {
    hide Pending;
    assert c.executed + ([job] + rest) == c.executed + [job] + rest;
  }

  lemma WorkerFlush(c: Core, c': Core, pc: ClientPc)
    requires CoreInv(c, pc) && WorkerStep(c, c')
    ensures FlushInv(c', pc)
  {
    if pc.Flushing? && !pc.stage.Enter? {
      assert c.shouldTerminate ==> c.worker.Done?;
      if c.worker.Fulfil? {
      } else {
        WorkerSettles(c, c');
        assert Kept(c') == Kept(c);
        assert c.jobs == [] && Pending(c) == [] ==> Pending(c') == [];
      }
    }
  }

  /** Once the queue is clear of what the worker left behind it stays so, and it never grows. */
  lemma WorkerSettles(c: Core, c': Core)
    requires WorkerStep(c, c')
    requires c.worker.Check? && c.shouldTerminate ==> c.jobs == []
    ensures Settled(c) && !c.worker.Done? ==> Settled(c')
    ensures c.jobs == [] ==> c'.jobs == []
  {
  }

  // ---------------------------------------------------------------- The thread inside the enqueue lock keeps it

  lemma InnerLocks(c: Core, pc: ClientPc, t: ThreadId, c': Core, pc': ClientPc)
    requires ExecutorLockInv(c, pc) && BatchInv(c) && InnerStep(c, pc, t, c', pc')
    ensures ExecutorLockInv(c', pc') && BatchInv(c')
  {
  }

  lemma InnerTermination(c: Core, pc: ClientPc, t: ThreadId, c': Core, pc': ClientPc)
    requires BatchInv(c) && TerminationInv(c, pc) && InnerStep(c, pc, t, c', pc')
    ensures TerminationInv(c', pc')
  {
  }

  lemma InnerPromise(c: Core, pc: ClientPc, t: ThreadId, c': Core, pc': ClientPc)
    requires ExecutorLockInv(c, pc) && PromiseInv(c, pc) && CountInv(c) && InnerStep(c, pc, t, c', pc')
    ensures PromiseInv(c', pc')
  {
  }

  lemma InnerCount(c: Core, pc: ClientPc, t: ThreadId, c': Core, pc': ClientPc)
    requires CountInv(c) && InnerStep(c, pc, t, c', pc')
    ensures CountInv(c')
  {
  }

  lemma InnerConserves(c: Core, pc: ClientPc, t: ThreadId, c': Core, pc': ClientPc)
    requires TerminationInv(c, pc) && ConservationInv(c) && InnerStep(c, pc, t, c', pc')
    ensures ConservationInv(c')
  {
  }

  lemma InnerFlush(c: Core, pc: ClientPc, t: ThreadId, c': Core, pc': ClientPc)
    requires CoreInv(c, pc) && InnerStep(c, pc, t, c', pc')
    ensures FlushInv(c', pc')
  {
  }

  // ---------------------------------------------------------------- Every step keeps it

  lemma WorkerKeepsInv(s: State, s': State)
    requires Inv(s) && WorkerStep(s.core, s'.core) && s' == s.(core := s'.core)
    ensures Inv(s')
  {
    var c, c', pc := s.core, s'.core, Owner(s);
    WorkerLocks(c, c', pc);
    WorkerBatch(c, c');
    WorkerTermination(c, c', pc);
    WorkerPromise(c, c', pc);
    WorkerCount(c, c', pc);
    WorkerConserves(c, c', pc);
    WorkerFlush(c, c', pc);
  }

  lemma InnerKeepsCoreInv(c: Core, pc: ClientPc, t: ThreadId, c': Core, pc': ClientPc)
    requires CoreInv(c, pc) && InnerStep(c, pc, t, c', pc')
    ensures CoreInv(c', pc')
  {
    InnerLocks(c, pc, t, c', pc');
    InnerTermination(c, pc, t, c', pc');
    InnerPromise(c, pc, t, c', pc');
    InnerCount(c, pc, t, c', pc');
    InnerConserves(c, pc, t, c', pc');
    InnerFlush(c, pc, t, c', pc');
  }

  /** A thread that passes the enqueue lock leaves the executor as it was. */
  lemma PassageKeepsCoreInv(c: Core, pc: ClientPc)
    requires pc.Flushing? && pc.stage.Enter? ==> FirstRound(pc.call)
    ensures CoreInv(c, Idle) && AtEntry(pc) ==> CoreInv(c, Entering(pc))
    ensures CoreInv(c, pc) && pc.Flushing? && pc.stage.Enter? ==> CoreInv(c, Entering(pc))
    ensures CoreInv(c, pc) && AtExit(pc) ==> CoreInv(c, Leaving(pc))
  {
  }

  lemma InnerDepth(c: Core, pc: ClientPc, t: ThreadId, c': Core, pc': ClientPc)
    requires InnerStep(c, pc, t, c', pc')
    ensures EnqueueDepth(pc') == EnqueueDepth(pc) > 0
    ensures !AtEntry(pc')
  {
  }

  /** A step of thread t from pc to pc' leaves every other thread outside the enqueue lock. */
  lemma ClientEnqueue(s: State, s': State, t: ThreadId)
    requires EnqueueInv(s) && t in s.clients && ClientStep(s, s', t)
    ensures EnqueueInv(s')
    ensures s.clients[t].Idle? ==> Owner(s') == Owner(s)
    ensures !s.clients[t].Idle? && AtEntry(s.clients[t]) ==>
              Owner(s) == if EnqueueDepth(s.clients[t]) == 0 then Idle else s.clients[t]
    ensures !s.clients[t].Idle? && !AtEntry(s.clients[t]) ==> Owner(s) == s.clients[t]
    ensures !s.clients[t].Idle? ==> Owner(s') == s'.clients[t]
  {
    var pc, pc' := s.clients[t], s'.clients[t];
    if !pc.Idle? && !AtEntry(pc) && !AtExit(pc) {
      InnerDepth(s.core, pc, t, s'.core, pc');
    }
  }

  lemma ClientKeepsInv(s: State, s': State, t: ThreadId)
    requires Inv(s) && t in s.clients && ClientStep(s, s', t)
    ensures Inv(s')
  {
    var pc, pc' := s.clients[t], s'.clients[t];
    ClientEnqueue(s, s', t);
    if pc.Idle? {
    } else if AtEntry(pc) || AtExit(pc) {
      PassageKeepsCoreInv(s.core, pc);
    } else {
      InnerKeepsCoreInv(s.core, pc, t, s'.core, pc');
    }
  }

  lemma StepKeepsInv(s: State, s': State)
    requires Inv(s) && Step(s, s')
    ensures Inv(s')
  {
    if WorkerStep(s.core, s'.core) && s' == s.(core := s'.core) {
      WorkerKeepsInv(s, s');
    } else {
      var t :| t in s.clients && ClientStep(s, s', t);
      ClientKeepsInv(s, s', t);
    }
  }

  lemma {:induction false} RunKeepsInv(run: seq<State>, i: nat)
    requires IsRun(run) && i < |run|
    ensures Inv(run[i])
  {
    if i > 0 {
      RunKeepsInv(run, i - 1);
      assert Step(run[i - 1], run[(i - 1) + 1]);
      StepKeepsInv(run[i - 1], run[i]);
    }
  }

  // ---------------------------------------------------------------- Claims over every run

  /** Jobs are neither lost nor duplicated nor reordered: what was accepted is, in this order, what ran, what
      the worker still holds, what waits in the queue, and what a terminate threw away. Until a terminate
      clears the queue nothing is thrown away. */
  lemma Conservation(run: seq<State>, i: nat)
    requires IsRun(run) && i < |run|
    ensures var c := run[i].core;
      && c.accepted == c.executed + Pending(c) + c.jobs + c.discarded
      && (!c.shouldTerminate && (forall t :: t in run[i].clients ==> !run[i].clients[t].TermSet?)
          ==> c.accepted == c.executed + Pending(c) + c.jobs)
  {
    RunKeepsInv(run, i);
    var c := run[i].core;
    assert c.executed + Pending(c) + c.jobs + [] == c.executed + Pending(c) + c.jobs;
  }

  ghost predicate Grows(c: Core, c': Core) {
    && c.executed <= c'.executed && c.accepted <= c'.accepted
    && (c.shouldTerminate ==> c'.shouldTerminate && c'.accepted == c.accepted)
  }

  lemma StepGrows(s: State, s': State)
    requires Inv(s) && Step(s, s')
    ensures Grows(s.core, s'.core)
  {
    if WorkerStep(s.core, s'.core) && s' == s.(core := s'.core) {
      WorkerGrows(s.core, s'.core);
    } else {
      var t :| t in s.clients && ClientStep(s, s', t);
      ClientEnqueue(s, s', t);
      InnerGrows(s.core, s.clients[t], t, s'.core, s'.clients[t]);
    }
  }

  lemma WorkerGrows(c: Core, c': Core)
    requires WorkerStep(c, c')
    ensures Grows(c, c')
  {
  }

  lemma InnerGrows(c: Core, pc: ClientPc, t: ThreadId, c': Core, pc': ClientPc)
    requires !pc.Idle? && !AtEntry(pc) && !AtExit(pc) ==> TerminationInv(c, pc)
    requires c' == c || InnerStep(c, pc, t, c', pc')
    ensures Grows(c, c')
  {
  }

  lemma ExecutedWithinAccepted(s: State)
    requires Inv(s)
    ensures s.core.executed <= s.core.accepted
  {
    var c := s.core;
    assert c.accepted == c.executed + (Pending(c) + c.jobs + c.discarded);
  }

  /** The jobs run so far are always a prefix of those accepted, in the order of acceptance; both only grow,
      and after a terminate nothing more is accepted. */
  lemma ExecutedIsPrefix(run: seq<State>, i: nat, j: nat)
    requires IsRun(run) && i <= j < |run|
    ensures run[i].core.executed <= run[j].core.executed <= run[j].core.accepted
    ensures run[i].core.accepted <= run[j].core.accepted
    ensures run[i].core.shouldTerminate ==> run[j].core.shouldTerminate && run[j].core.accepted == run[i].core.accepted
  {
    RunStep(run, j);
    RunGrows(run, i, j);
    hide IsRun;
  }

  lemma {:induction false} RunGrows(run: seq<State>, i: nat, j: nat)
    requires IsRun(run) && i <= j < |run|
    ensures Grows(run[i].core, run[j].core)
    decreases j - i
  {
    hide *;
    if i == j {
      GrowsOntoItself(run[i].core);
    } else {
      RunGrows(run, i, j - 1);
      RunStep(run, j);
      GrowsOn(run[i].core, run[j - 1].core, run[j].core);
    }
  }

  lemma GrowsOntoItself(c: Core)
    ensures Grows(c, c)
  {
  }

  lemma GrowsOn(a: Core, b: Core, c: Core)
    requires Grows(a, b) && Grows(b, c)
    ensures Grows(a, c)
  {
  }

  lemma RunStep(run: seq<State>, j: nat)
    requires IsRun(run) && j < |run|
    ensures run[j].core.executed <= run[j].core.accepted
    ensures j > 0 ==> Grows(run[j - 1].core, run[j].core)
  {
    RunKeepsInv(run, j);
    ExecutedWithinAccepted(run[j]);
    if j > 0 {
      RunKeepsInv(run, j - 1);
      assert Step(run[j - 1], run[(j - 1) + 1]);
      StepGrows(run[j - 1], run[j]);
    }
  }

  /** A terminate that was asked to flush, and whose flush did not time out, throws no job away: all that were accepted
      have run, but for the rest of the batch that the worker has taken. */
  lemma FlushedTerminateKeepsJobs(run: seq<State>, i: nat, t: ThreadId)
    requires IsRun(run) && i < |run| && t in run[i].clients && HasFlushed(run[i].clients[t])
    ensures run[i].core.discarded == [] && run[i].core.jobs == []
    ensures run[i].core.accepted == run[i].core.executed + Pending(run[i].core)
  {
    RunKeepsInv(run, i);
    TerminatorIsOwner(run[i], t);
    var c := run[i].core;
    assert c.executed + Pending(c) + [] + [] == c.executed + Pending(c);
  }

  lemma TerminatorIsOwner(s: State, t: ThreadId)
    requires Inv(s) && t in s.clients && InTerminate(s.clients[t])
    ensures Owner(s) == s.clients[t]
  {
  }

  /** No promise is fulfilled twice, which would end the process. */
  lemma PromisesAreKeptOnce(run: seq<State>, i: nat, k: nat)
    requires IsRun(run) && i < |run|
    ensures k < |run[i].core.promises| ==> run[i].core.promises[k] <= 1
  {
    RunKeepsInv(run, i);
  }

  lemma FlusherIsOwner(s: State, t: ThreadId)
    requires EnqueueInv(s) && t in s.clients && s.clients[t].Flushing? && !s.clients[t].stage.Enter?
    ensures Owner(s) == s.clients[t]
  {
  }

  /** A flush raises its flag at most twice. */
  lemma FlushTakesTwoRounds(run: seq<State>, i: nat, t: ThreadId)
    requires IsRun(run) && i < |run| && t in run[i].clients && run[i].clients[t].Flushing?
    ensures 1 <= run[i].clients[t].call.round <= 2
  {
    RunKeepsInv(run, i);
    if !run[i].clients[t].stage.Enter? {
      FlusherIsOwner(run[i], t);
    }
  }

  ghost predicate ReturnsInTime(pc: ClientPc) {
    pc.Flushing? && pc.stage.Leave? && !pc.call.timedOut
  }

  /** When a flush returns without timing out, the worker is alive and every job accepted by then is run or
      in the batch of the worker. A flush that needed its second round has run them all. */
  lemma FlushGuarantee(run: seq<State>, i: nat, j: nat, t: ThreadId)
    requires IsRun(run) && i <= j < |run| && t in run[j].clients && ReturnsInTime(run[j].clients[t])
    ensures !run[j].core.shouldTerminate
    ensures run[i].core.accepted <= run[j].core.executed + Pending(run[j].core) == run[j].core.accepted
    ensures run[j].clients[t].call.round == 2 ==> run[j].core.executed == run[j].core.accepted
  {
    RunKeepsInv(run, j);
    ExecutedIsPrefix(run, i, j);
    FlusherIsOwner(run[j], t);
    var c := run[j].core;
    assert c.executed + Pending(c) + [] + [] == c.executed + Pending(c);
  }

  // ---------------------------------------------------------------- When a flush drains the queue

  /** Thread t is inside one call of flush, past its lock. */
  ghost predicate InFlush(s: State, t: ThreadId) {
    t in s.clients && s.clients[t].Flushing? && !s.clients[t].stage.Enter?
  }

  /** A path from s during which t stays in its flush. */
  ghost predicate FlushPath(path: seq<State>, s: State, t: ThreadId) {
    IsPath(path) && path[0] == s && forall i :: 0 <= i < |path| ==> InFlush(path[i], t)
  }

  /** Wherever the flush of t goes from s: if it returns in time, every accepted job has run. */
  ghost predicate Drains(s: State, t: ThreadId) {
    forall path: seq<State> :: FlushPath(path, s, t) && ReturnsInTime(path[|path| - 1].clients[t])
      ==> path[|path| - 1].core.executed == path[|path| - 1].core.accepted
  }

  lemma {:induction false} SettledStaysSettled(path: seq<State>, s: State, t: ThreadId, i: nat)
    requires Inv(s) && InFlush(s, t) && s.clients[t].stage.Raise? && Settled(s.core)
    requires FlushPath(path, s, t) && 1 <= i < |path|
    ensures Inv(path[i])
    ensures path[i].clients[t].stage.Raise? || path[i].clients[t].call.settled
    ensures path[i].clients[t].stage.Raise? || path[i].clients[t].stage.Renew? || Raised(path[i].clients[t].stage)
    ensures path[i].clients[t].stage.Raise? ==> Settled(path[i].core)
  {
    if i == 1 {
      StepStaysSettled(path[0], path[0 + 1], t);
    } else {
      SettledStaysSettled(path, s, t, i - 1);
      StepStaysSettled(path[i - 1], path[(i - 1) + 1], t);
    }
  }

  lemma StepStaysSettled(s: State, s': State, t: ThreadId)
    requires Inv(s) && InFlush(s, t) && InFlush(s', t) && Step(s, s')
    requires var pc := s.clients[t];
      if pc.stage.Raise? then Settled(s.core) else pc.call.settled && (pc.stage.Renew? || Raised(pc.stage))
    ensures Inv(s')
    ensures var pc := s'.clients[t];
      if pc.stage.Raise? then Settled(s'.core) else pc.call.settled && (pc.stage.Renew? || Raised(pc.stage))
  {
    StepKeepsInv(s, s');
    FlusherIsOwner(s, t);
    FlusherIsOwner(s', t);
    if WorkerStep(s.core, s'.core) && s' == s.(core := s'.core) {
      WorkerSettles(s.core, s'.core);
    } else {
      var u :| u in s.clients && ClientStep(s, s', u);
      ClientEnqueue(s, s', u);
    }
  }

  /** Some path leads from s to e without t leaving its flush. */
  ghost predicate Walk(s: State, e: State, t: ThreadId) {
    exists path: seq<State> :: FlushPath(path, s, t) && path[|path| - 1] == e
  }

  lemma WalkOn(s: State, m: State, e: State, t: ThreadId)
    requires Walk(s, m, t) && Step(m, e) && InFlush(e, t)
    ensures Walk(s, e, t)
  {
    var path: seq<State> :| FlushPath(path, s, t) && path[|path| - 1] == m;
    var longer := path + [e];
    forall i | 0 <= i < |longer| - 1
      ensures Step(longer[i], longer[i + 1])
    {
      if i < |path| - 1 {
        assert Step(path[i], path[i + 1]);
      }
    }
    assert FlushPath(longer, s, t) && longer[|longer| - 1] == e;
  }

  lemma WorkerWalks(s: State, m: State, c: Core, t: ThreadId) returns (e: State)
    requires Walk(s, m, t) && WorkerStep(m.core, c) && InFlush(m, t) && Inv(m)
    ensures e == m.(core := c) && Walk(s, e, t) && Inv(e)
  {
    e := m.(core := c);
    WalkOn(s, m, e, t);
    StepKeepsInv(m, e);
  }

  lemma ClientWalks(s: State, m: State, c: Core, pc: ClientPc, t: ThreadId) returns (e: State)
    requires Walk(s, m, t) && InFlush(m, t) && Inv(m)
    requires !m.clients[t].stage.Leave? && InnerStep(m.core, m.clients[t], t, c, pc) && pc.Flushing?
    ensures e == State(c, m.enqueueLock, m.clients[t := pc]) && Walk(s, e, t) && Inv(e)
  {
    e := State(c, m.enqueueLock, m.clients[t := pc]);
    InnerDepth(m.core, m.clients[t], t, c, pc);
    assert ClientStep(m, e, t);
    WalkOn(s, m, e, t);
    StepKeepsInv(m, e);
  }

  /** The flusher from the raise of its flag to its wait. */
  lemma FlusherWaits(s: State, t: ThreadId) returns (e: State)
    requires Inv(s) && InFlush(s, t) && s.clients[t].stage.Raise? && !Settled(s.core)
    ensures Walk(s, e, t) && Inv(e) && InFlush(e, t)
    ensures e.clients[t].stage.Await? && e.clients[t].call.promise == |e.core.promises| - 1
    ensures !e.clients[t].call.timedOut
    ensures e.core == s.core.(flushingJobs := true, promises := s.core.promises + [0], executorLock := Free)
  {
    FlusherIsOwner(s, t);
    assert FlushPath([s], s, t);
    var f := s.clients[t].call.(settled := Settled(s.core));
    e := ClientWalks(s, s, s.core.(flushingJobs := true), Flushing(Renew, f), t);
    e := ClientWalks(s, e, e.core.(promises := e.core.promises + [0]), Flushing(Let, f), t);
    e := FlusherLetsGo(s, e, t);
  }

  lemma FlusherLetsGo(s: State, m: State, t: ThreadId) returns (e: State)
    requires Walk(s, m, t) && Inv(m) && InFlush(m, t) && m.clients[t].stage.Let?
    ensures Walk(s, e, t) && Inv(e) && InFlush(e, t)
    ensures e.clients[t] == Flushing(Await, m.clients[t].call.(promise := |e.core.promises| - 1))
    ensures e.core == m.core.(executorLock := Free)
  {
    FlusherIsOwner(m, t);
    var f := m.clients[t].call;
    e := ClientWalks(s, m, m.core.(executorLock := Free), Flushing(Future, f), t);
    e := ClientWalks(s, e, e.core, Flushing(Await, f.(promise := |e.core.promises| - 1)), t);
  }

  ghost predicate Answering(w: WorkerPc) {
    w.Test? || w.Running? || w.ClearBatch? || w.Flag? || w.FlagLock? || w.Reset? || w.Fulfil?
  }

  ghost function AnswerDistance(c: Core): nat {
    match c.worker
    case Test => |c.batch| + 7
    case Running(next) => if next <= |c.batch| then |c.batch| - next + 6 else 6
    case ClearBatch => 5
    case Flag => 4
    case FlagLock => 3
    case Reset => 2
    case Fulfil => 1
    case _ => 0
  }

  /** The worker from the batch at hand to the promise, without a look at the queue. */
  lemma {:induction false} WorkerAnswers(s: State, m: State, t: ThreadId) returns (e: State)
    requires Walk(s, m, t) && Inv(m) && InFlush(m, t) && m.clients[t].stage.Await?
    requires Answering(m.core.worker) && !m.core.shouldTerminate
    requires m.core.flushingJobs || m.core.worker.Fulfil?
    requires m.core.executorLock == Free || m.core.worker.Reset? || m.core.worker.Fulfil?
    ensures Walk(s, e, t) && Inv(e) && e.clients == m.clients && Kept(e.core) && |e.core.promises| == |m.core.promises|
    ensures e.core.worker.Release? && e.core.batch == [] && e.core.jobs == m.core.jobs && !e.core.shouldTerminate
    decreases AnswerDistance(m.core)
  {
    var c := m.core;
    if c.worker.Fulfil? {
      FlusherIsOwner(m, t);
      e := WorkerWalks(s, m, c.(promises := Fulfilled(c.promises), worker := Release), t);
    } else {
      var c' := NextAnswer(c);
      e := WorkerWalks(s, m, c', t);
      e := WorkerAnswers(s, e, t);
    }
  }

  lemma NextAnswer(c: Core) returns (c': Core)
    requires Answering(c.worker) && !c.worker.Fulfil? && !c.shouldTerminate && c.flushingJobs && BatchInv(c)
    requires c.executorLock == Free || c.worker.Reset?
    ensures WorkerStep(c, c') && Answering(c'.worker) && AnswerDistance(c') < AnswerDistance(c)
    ensures c'.jobs == c.jobs && c'.promises == c.promises && !c'.shouldTerminate
    ensures c'.flushingJobs || c'.worker.Fulfil?
    ensures c'.executorLock == Free || c'.worker.Reset? || c'.worker.Fulfil?
  {
    match c.worker
    case Test => c' := c.(worker := if c.batch != [] then Running(0) else Flag);
    case Running(next) =>
      c' := if next < |c.batch| then c.(executed := c.executed + [c.batch[next]], worker := Running(next + 1))
            else c.(worker := ClearBatch);
    case ClearBatch => c' := c.(batch := [], worker := Flag);
    case Flag => c' := c.(worker := FlagLock);
    case FlagLock => c' := c.(executorLock := ByWorker, worker := Reset);
    case Reset => c' := c.(flushingJobs := false, worker := Fulfil);
  }

  /** The worker from the promise to a fresh batch. */
  lemma WorkerTakes(s: State, m: State, t: ThreadId) returns (e: State)
    requires Walk(s, m, t) && Inv(m) && InFlush(m, t) && m.clients[t].stage.Await?
    requires m.core.worker.Release? && m.core.batch == [] && m.core.jobs != [] && !m.core.shouldTerminate
    ensures Walk(s, e, t) && Inv(e) && e.clients == m.clients && e.core.promises == m.core.promises
    ensures e.core.worker.Move? && e.core.jobs == [] && e.core.batch != [] && !e.core.shouldTerminate
  {
    e := WorkerWalks(s, m, m.core.(executorLock := Free, worker := Loop), t);
    e := WorkerWalks(s, e, e.core.(worker := Lock), t);
    e := WorkerWalks(s, e, e.core.(executorLock := ByWorker, worker := Wait), t);
    e := WorkerWalks(s, e, e.core.(worker := Check), t);
    e := WorkerWalks(s, e, e.core.(worker := Move), t);
    e := WorkerMoves(s, e, t);
  }

  lemma {:induction false} WorkerMoves(s: State, m: State, t: ThreadId) returns (e: State)
    requires Walk(s, m, t) && Inv(m) && InFlush(m, t)
    requires m.core.worker.Move? && m.core.batch + m.core.jobs != []
    ensures Walk(s, e, t) && Inv(e) && e.clients == m.clients && e.core.promises == m.core.promises
    ensures e.core.worker.Move? && e.core.jobs == [] && e.core.batch != []
    ensures e.core.shouldTerminate == m.core.shouldTerminate
    decreases |m.core.jobs|
  {
    if m.core.jobs == [] {
      e := m;
    } else {
      e := WorkerWalks(s, m, m.core.(batch := m.core.batch + [m.core.jobs[0]], jobs := m.core.jobs[1..]), t);
      e := WorkerMoves(s, e, t);
    }
  }

  /** When the flag is raised behind the back of a worker that has left jobs in the queue, there is a way for
      the flush to return in time with jobs that have not run. */
  lemma FlushMayEscape(s: State, t: ThreadId) returns (e: State)
    requires Inv(s) && InFlush(s, t) && s.clients[t].stage.Raise? && !Settled(s.core)
    ensures Walk(s, e, t) && ReturnsInTime(e.clients[t]) && e.core.executed != e.core.accepted
  {
    FlusherIsOwner(s, t);
    e := FlusherWaits(s, t);
    e := WorkerAnswers(s, e, t);
    e := WorkerTakes(s, e, t);
    var f := e.clients[t].call;
    e := ClientWalks(s, e, e.core, Flushing(Retest, f), t);
    e := ClientWalks(s, e, e.core, Flushing(Leave, f), t);
    assert |Pending(e.core)| > 0;
    assert |e.core.accepted| == |e.core.executed| + |Pending(e.core)| + |e.core.jobs| + |e.core.discarded|;
  }

  /** Exactly when a flush is sure to have run every accepted job on its return: when, at the raise of the
      flag, the worker has yet to look at the queue or the queue is empty. */
  lemma FlushDrainsIffSettled(run: seq<State>, t: ThreadId)
    requires IsRun(run)
    requires var s := run[|run| - 1]; InFlush(s, t) && s.clients[t].stage.Raise?
    ensures Drains(run[|run| - 1], t) <==> Settled(run[|run| - 1].core)
  {
    var s := run[|run| - 1];
    RunKeepsInv(run, |run| - 1);
    if Settled(s.core) {
      forall path: seq<State> | FlushPath(path, s, t) && ReturnsInTime(path[|path| - 1].clients[t])
        ensures path[|path| - 1].core.executed == path[|path| - 1].core.accepted
      {
        var e := path[|path| - 1];
        SettledStaysSettled(path, s, t, |path| - 1);
        FlusherIsOwner(e, t);
      }
    } else {
      var e := FlushMayEscape(s, t);
      var path: seq<State> :| FlushPath(path, s, t) && path[|path| - 1] == e;
      assert !Drains(s, t);
    }
  }
}
