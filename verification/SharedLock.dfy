/** The recursive lock shared by all entities, and the guard that releases it entirely for a while.
    Threads interleave between any two accesses to the mutex or to the two fields beside it. */
module SharedLock {

  import opened Common

  // ---------------------------------------------------------------- One thread undisturbed

  type Thread = nat

  /** The lock as one thread works on it while it is not held by another. */
  class LockInformation {
    /** The recursive mutex: its owner and how often it was taken. */
    var owner: Option<Thread>
    var depth: nat
    var lockedCount: nat
    var lockingThread: Option<Thread>

    ghost predicate Valid()
      reads this
    {
      && (owner.None? <==> depth == 0)
      && lockedCount == depth && lockingThread == owner
    }

    constructor ()
      ensures Valid() && depth == 0
    {
      owner, depth, lockedCount, lockingThread := None, 0, 0, None;
    }

    method Lock(self: Thread)
      requires Valid() && (owner.None? || owner == Some(self))
      modifies this
      ensures Valid() && owner == Some(self) && depth == old(depth) + 1
    {
      owner, depth := Some(self), depth + 1;
      if lockedCount == 0 {
        lockingThread := Some(self);
      }
      lockedCount := lockedCount + 1;
    }

    method Unlock(self: Thread)
      requires Valid() && owner == Some(self)
      modifies this
      ensures Valid() && depth == old(depth) - 1 && owner == if depth == 0 then None else Some(self)
    {
      lockedCount := lockedCount - 1;
      if lockedCount == 0 {
        lockingThread := None;
      }
      depth := depth - 1;
      owner := if depth == 0 then None else owner;
    }

    method LockAll(self: Thread, count: nat)
      requires Valid() && (owner.None? || owner == Some(self))
      modifies this
      ensures Valid() && depth == old(depth) + count && owner == if depth == 0 then None else Some(self)
    {
      for i := 0 to count
        invariant Valid() && depth == old(depth) + i && owner == if depth == 0 then None else Some(self)
      {
        Lock(self);
      }
    }

    /** Releases the lock entirely and says how often it was held. */
    method UnlockAll(self: Thread) returns (released: nat)
      requires Valid() && owner == Some(self)
      modifies this
      ensures Valid() && owner == None && released == old(depth)
    {
      released := 0;
      while lockingThread == Some(self)
        invariant Valid() && depth + released == old(depth) && (owner == Some(self) || owner == None)
        decreases depth
      {
        Unlock(self);
        released := released + 1;
      }
    }
  }

  // ---------------------------------------------------------------- All threads interleaved

  /** Who runs a lock or unlock body: the caller's code, or the loop of lockAll with so many rounds to go, or the
      loop of unlockAll with so many rounds done. */
  datatype Caller = User | Loop(rounds: nat)

  datatype Pc =
    | Idle
    // lock
    | Acquire(caller: Caller)
    | TestFree(caller: Caller)
    | TakeOver(caller: Caller)
    | CountUp(caller: Caller)
    // unlock
    | CountDown(caller: Caller)
    | TestLast(caller: Caller)
    | HandOver(caller: Caller)
    | Release(caller: Caller)
    // lockAll and unlockAll
    | LockLoop(left: nat)
    | UnlockLoop(released: nat)
    // the constructor of a guard
    | GuardTest

  datatype Guard = Guard(wasLocked: bool, lockedCount: nat)

  /** A thread: its guards, the innermost one last, and by how much its own locks exceed its own unlocks. */
  datatype Local = Local(pc: Pc, guards: seq<Guard>, net: int)

  datatype State = State(owner: Option<Thread>, depth: int, count: int, lockingThread: Option<Thread>,
                         locals: map<Thread, Local>)
  {
    predicate IsSelfLocked(t: Thread) {
      lockingThread == Some(t)
    }

    /** How often a thread holds the mutex. */
    function Held(t: Thread): int {
      if owner == Some(t) then depth else 0
    }

    function With(t: Thread, l: Local): State {
      this.(locals := locals[t := l])
    }

    function At(t: Thread, pc: Pc): State
      requires t in locals
    {
      With(t, locals[t].(pc := pc))
    }
  }

  predicate IsInitial(s: State) {
    && s.owner == None && s.depth == 0 && s.count == 0 && s.lockingThread == None
    && forall t :: t in s.locals ==> s.locals[t] == Local(Idle, [], 0)
  }

  /** The next step of a thread in one of the operations; None when it is idle or waits for the mutex. */
  function Advance(s: State, t: Thread): Option<State>
    requires t in s.locals
  {
    var l := s.locals[t];
    match l.pc
    case Idle => None
    case Acquire(c) =>
      if s.owner.Some? && s.owner != Some(t) then None
      else Some(s.(owner := Some(t), depth := s.depth + 1)
                 .With(t, l.(pc := TestFree(c), net := l.net + if c == User then 1 else 0)))
    case TestFree(c) => Some(s.At(t, if s.count == 0 then TakeOver(c) else CountUp(c)))
    case TakeOver(c) => Some(s.(lockingThread := Some(t)).At(t, CountUp(c)))
    case CountUp(c) => Some(s.(count := s.count + 1).At(t, if c == User then Idle else LockLoop(c.rounds)))
    case CountDown(c) => Some(s.(count := s.count - 1).At(t, TestLast(c)))
    case TestLast(c) => Some(s.At(t, if s.count == 0 then HandOver(c) else Release(c)))
    case HandOver(c) => Some(s.(lockingThread := None).At(t, Release(c)))
    case Release(c) =>
      Some(s.(depth := s.depth - 1, owner := if s.depth == 1 then None else s.owner)
            .With(t, l.(pc := if c == User then Idle else UnlockLoop(c.rounds + 1),
                        net := l.net - if c == User then 1 else 0)))
    case LockLoop(left) => Some(s.At(t, if left == 0 then Idle else Acquire(Loop(left - 1))))
    case UnlockLoop(released) =>
      Some(if s.IsSelfLocked(t) then s.At(t, CountDown(Loop(released)))
           else s.With(t, l.(pc := Idle, guards := l.guards + [Guard(true, released)])))
    case GuardTest =>
      Some(if s.IsSelfLocked(t) then s.At(t, UnlockLoop(0))
           else s.With(t, l.(pc := Idle, guards := l.guards + [Guard(false, 0)])))
  }

  /** An idle thread calls lock, or unlock if it is the holder, or enters or leaves the scope of a guard. */
  predicate Begins(s: State, t: Thread, next: State)
    requires t in s.locals
  {
    var l := s.locals[t];
    && l.pc == Idle
    && (|| next == s.At(t, Acquire(User))
        || (s.IsSelfLocked(t) && next == s.At(t, CountDown(User)))
        || next == s.At(t, GuardTest)
        || (l.guards != [] && next == Leave(s, t)))
  }

  function Leave(s: State, t: Thread): State
    requires t in s.locals && s.locals[t].guards != []
  {
    var l := s.locals[t];
    var last := |l.guards| - 1;
    var g := l.guards[last];
    s.With(t, l.(guards := l.guards[..last], pc := if g.wasLocked then LockLoop(g.lockedCount) else Idle))
  }

  predicate Step(s: State, t: Thread, next: State) {
    t in s.locals && (Advance(s, t) == Some(next) || Begins(s, t, next))
  }

  /** The states of a run, with the thread that makes each step. */
  ghost predicate IsRun(states: seq<State>, threads: seq<Thread>) {
    && |states| == |threads| + 1 && IsInitial(states[0])
    && forall i :: 0 <= i < |threads| ==> Step(states[i], threads[i], states[i + 1])
  }

  // ---------------------------------------------------------------- What every step keeps

  /** Inside a lock or unlock body, between taking the mutex and the last access to the fields beside it. */
  predicate Inside(pc: Pc) {
    pc.TestFree? || pc.TakeOver? || pc.CountUp? || pc.CountDown? || pc.TestLast? || pc.HandOver? || pc.Release?
  }

  /** What the fields say while their thread owns the mutex, by its place in a body. */
  predicate Shared(s: State, t: Thread, pc: Pc) {
    match pc
    case TestFree(_) => s.count == s.depth - 1 && s.lockingThread == if s.count == 0 then None else Some(t)
    case TakeOver(_) => s.count == 0 && s.depth == 1 && s.lockingThread == None
    case CountUp(_) => s.count == s.depth - 1 && s.lockingThread == Some(t)
    case TestLast(_) => s.count == s.depth - 1 && s.lockingThread == Some(t)
    case HandOver(_) => s.count == 0 && s.depth == 1 && s.lockingThread == Some(t)
    case Release(_) => s.count == s.depth - 1 && s.lockingThread == if s.count == 0 then None else Some(t)
    case _ => s.count == s.depth && s.lockingThread == Some(t)
  }

  predicate OwnerInv(s: State) {
    match s.owner
    case None => s.depth == 0 && s.count == 0 && s.lockingThread == None
    case Some(o) => s.depth >= 1 && o in s.locals && Shared(s, o, s.locals[o].pc)
  }

  function Saved(guards: seq<Guard>): int {
    if guards == [] then 0 else Saved(guards[..|guards| - 1]) + guards[|guards| - 1].lockedCount
  }

  /** What a loop of lockAll is still to take back, or a loop of unlockAll has released so far. */
  function InFlight(pc: Pc): int {
    match pc
    case Idle => 0
    case GuardTest => 0
    case LockLoop(left) => left
    case UnlockLoop(released) => released
    case Acquire(c) => if c == User then 0 else c.rounds + 1
    case _ => if pc.caller == User then 0 else pc.caller.rounds
  }

  ghost predicate LocalInv(s: State, t: Thread) {
    t in s.locals ==>
      var l := s.locals[t];
      && (Inside(l.pc) ==> s.owner == Some(t))
      && (forall k :: 0 <= k < |l.guards| && !l.guards[k].wasLocked ==> l.guards[k].lockedCount == 0)
      && s.Held(t) + Saved(l.guards) + InFlight(l.pc) == l.net
  }

  ghost predicate Inv(s: State) {
    OwnerInv(s) && forall t :: LocalInv(s, t)
  }

  lemma AdvanceKeepsOwnerInv(s: State, t: Thread)
    requires OwnerInv(s) && LocalInv(s, t) && t in s.locals && Advance(s, t).Some?
    ensures OwnerInv(Advance(s, t).value)
  {
    hide Saved, InFlight;
  }

  lemma SavedStep(guards: seq<Guard>, g: Guard)
    ensures Saved(guards + [g]) == Saved(guards) + g.lockedCount
  {
    assert (guards + [g])[..|guards|] == guards;
  }

  ghost predicate Balanced(s: State, t: Thread)
    requires t in s.locals
  {
    s.Held(t) + Saved(s.locals[t].guards) + InFlight(s.locals[t].pc) == s.locals[t].net
  }

  lemma OwnBalance(s: State, t: Thread)
    requires OwnerInv(s) && LocalInv(s, t) && t in s.locals && Advance(s, t).Some?
    ensures Balanced(Advance(s, t).value, t)
  {
    var l := s.locals[t];
    SavedStep(l.guards, Guard(false, 0));
    if l.pc.UnlockLoop? {
      SavedStep(l.guards, Guard(true, l.pc.released));
    }
    hide Saved;
  }

  lemma OwnPlace(s: State, t: Thread)
    requires OwnerInv(s) && LocalInv(s, t) && t in s.locals && Advance(s, t).Some?
    ensures var next := Advance(s, t).value;
            var l := next.locals[t];
            && (Inside(l.pc) ==> next.owner == Some(t))
            && (forall k :: 0 <= k < |l.guards| && !l.guards[k].wasLocked ==> l.guards[k].lockedCount == 0)
  {
    hide Saved, InFlight;
  }

  lemma AdvanceKeepsOwnLocalInv(s: State, t: Thread)
    requires OwnerInv(s) && LocalInv(s, t) && t in s.locals && Advance(s, t).Some?
    ensures LocalInv(Advance(s, t).value, t)
  {
    OwnBalance(s, t);
    OwnPlace(s, t);
    hide Saved, InFlight, Advance, OwnerInv, Inside;
  }

  /** A step of t touches no other thread and leaves the mutex alone when another thread owns it. */
  lemma AdvanceLeavesOthers(s: State, t: Thread, u: Thread)
    requires OwnerInv(s) && LocalInv(s, t) && t in s.locals && Advance(s, t).Some? && u != t
    ensures var next := Advance(s, t).value;
            && next.Held(u) == s.Held(u) && next.locals.Keys == s.locals.Keys
            && (u in s.locals ==> next.locals[u] == s.locals[u])
            && (s.owner == Some(u) ==> next.owner == Some(u))
  {
    hide Saved, InFlight;
  }

  lemma BeginKeepsInv(s: State, t: Thread, next: State)
    requires Inv(s) && t in s.locals && Begins(s, t, next)
    ensures Inv(next)
  {
    hide Advance;
    assert LocalInv(s, t);
    var l := s.locals[t];
    if l.guards != [] {
      var last := |l.guards| - 1;
      assert Saved(l.guards) == Saved(l.guards[..last]) + l.guards[last].lockedCount;
    }
    hide Saved;
    forall u ensures LocalInv(next, u) {
      assert LocalInv(s, u);
    }
  }

  lemma StepKeepsInv(s: State, t: Thread, next: State)
    requires Inv(s) && Step(s, t, next)
    ensures Inv(next)
  {
    if Advance(s, t) == Some(next) {
      assert LocalInv(s, t);
      AdvanceKeepsOwnerInv(s, t);
      forall u ensures LocalInv(next, u) {
        if u == t {
          AdvanceKeepsOwnLocalInv(s, t);
        } else {
          assert LocalInv(s, u);
          AdvanceLeavesOthers(s, t, u);
          hide Advance, OwnerInv, Saved, InFlight;
        }
      }
    } else {
      BeginKeepsInv(s, t, next);
    }
  }

  lemma {:induction false} RunKeepsInv(states: seq<State>, threads: seq<Thread>, n: nat)
    requires IsRun(states, threads) && n < |states|
    ensures Inv(states[n])
  {
    if n > 0 {
      RunKeepsInv(states, threads, n - 1);
      StepKeepsInv(states[n - 1], threads[n - 1], states[n]);
    }
  }

  // ---------------------------------------------------------------- What the lock is for

  /** In every reachable state a thread outside the lock and unlock bodies sees itself as the holder exactly when it
      owns the mutex, and the count is then the depth of its recursion. */
  lemma SelfLockedIffHeld(states: seq<State>, threads: seq<Thread>, n: nat, t: Thread)
    requires IsRun(states, threads) && n < |states| && t in states[n].locals && !Inside(states[n].locals[t].pc)
    ensures var s := states[n];
            && (s.IsSelfLocked(t) <==> s.owner == Some(t))
            && (s.owner == Some(t) ==> s.count == s.Held(t) > 0)
            && (s.owner == None ==> s.count == 0)
  {
    RunKeepsInv(states, threads, n);
    var s := states[n];
    if s.owner.Some? && s.owner != Some(t) {
      assert Shared(s, s.owner.value, s.locals[s.owner.value].pc);
    }
  }

  /** No two threads are in a lock or unlock body. */
  lemma BodiesExclude(states: seq<State>, threads: seq<Thread>, n: nat, t: Thread, u: Thread)
    requires IsRun(states, threads) && n < |states| && t in states[n].locals && u in states[n].locals
    requires Inside(states[n].locals[t].pc) && Inside(states[n].locals[u].pc)
    ensures t == u
  {
    RunKeepsInv(states, threads, n);
    assert LocalInv(states[n], t) && LocalInv(states[n], u);
  }

  /** A guard that has just been made leaves its thread without the lock. */
  lemma GuardReleases(states: seq<State>, threads: seq<Thread>, n: nat, t: Thread)
    requires IsRun(states, threads) && n < |threads| && t in states[n].locals && t in states[n + 1].locals
    requires |states[n + 1].locals[t].guards| > |states[n].locals[t].guards|
    ensures states[n + 1].Held(t) == 0 && states[n + 1].locals[t].pc == Idle
  {
    RunKeepsInv(states, threads, n);
    var s, u, next := states[n], threads[n], states[n + 1];
    assert LocalInv(s, u) && LocalInv(s, t);
    if u != t && Advance(s, u) == Some(next) {
      AdvanceLeavesOthers(s, u, t);
    }
    hide Saved, InFlight;
  }

  function Guards(s: State, t: Thread): seq<Guard> {
    if t in s.locals then s.locals[t].guards else []
  }

  /** From state m to state n the thread has not left the scopes it was in. */
  ghost predicate WithinScopes(states: seq<State>, t: Thread, m: nat, n: nat) {
    && m <= n < |states|
    && forall i :: m <= i <= n ==> |Guards(states[i], t)| >= |Guards(states[m], t)|
  }

  lemma GuardsStep(s: State, t: Thread, next: State, u: Thread, k: nat)
    requires Step(s, t, next) && k <= |Guards(s, u)| && k <= |Guards(next, u)|
    ensures Guards(next, u)[..k] == Guards(s, u)[..k]
    ensures u in next.locals <==> u in s.locals
  {
  }

  lemma {:induction false} OuterGuardsStay(states: seq<State>, threads: seq<Thread>, t: Thread, m: nat, n: nat)
    requires IsRun(states, threads) && WithinScopes(states, t, m, n)
    ensures Guards(states[n], t)[..|Guards(states[m], t)|] == Guards(states[m], t)
    ensures t in states[n].locals <==> t in states[m].locals
  {
    if m < n {
      OuterGuardsStay(states, threads, t, m, n - 1);
      GuardsStep(states[n - 1], threads[n - 1], states[n], t, |Guards(states[m], t)|);
    } else {
      assert Guards(states[m], t)[..|Guards(states[m], t)|] == Guards(states[m], t);
    }
  }

  lemma {:induction false} SavedConcat(a: seq<Guard>, b: seq<Guard>)
    ensures Saved(a + b) == Saved(a) + Saved(b)
  {
    if b == [] {
      assert a + b == a;
    } else {
      var n := |b| - 1;
      SavedConcat(a, b[..n]);
      assert (a + b)[..|a| + n] == a + b[..n];
    }
  }

  /** However scopes are nested and threads interleave, from one idle moment of a thread to a later one within the
      same scopes, what it holds and what the guards made since have put aside change by its own locks less its own
      unlocks. Back in the outer scope the depth is therefore what it was, up to those. */
  lemma GuardsRestoreDepth(states: seq<State>, threads: seq<Thread>, t: Thread, m: nat, n: nat)
    requires IsRun(states, threads) && WithinScopes(states, t, m, n) && t in states[m].locals && t in states[n].locals
    requires states[m].locals[t].pc == Idle && states[n].locals[t].pc == Idle
    ensures var outer := |Guards(states[m], t)|;
            states[n].Held(t) + Saved(Guards(states[n], t)[outer..]) - states[m].Held(t) ==
            states[n].locals[t].net - states[m].locals[t].net
    ensures Guards(states[n], t) == Guards(states[m], t) ==>
            states[n].Held(t) - states[m].Held(t) == states[n].locals[t].net - states[m].locals[t].net
  {
    RunKeepsInv(states, threads, m);
    RunKeepsInv(states, threads, n);
    assert LocalInv(states[m], t) && LocalInv(states[n], t);
    OuterGuardsStay(states, threads, t, m, n);
    var outer := |Guards(states[m], t)|;
    var now := Guards(states[n], t);
    SavedConcat(now[..outer], now[outer..]);
    assert now == now[..outer] + now[outer..];
  }
}
