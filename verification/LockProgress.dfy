/** What each operation on the shared lock does to the depth of a thread that no other keeps waiting. */
module LockProgress {

  import opened Common
  import opened SharedLock

  /** The mutex is free for t. */
  predicate IsFree(s: State, t: Thread) {
    t in s.locals && (s.owner.None? || s.owner == Some(t))
  }

  // ---------------------------------------------------------------- How far a thread is from the end of its operation

  /** The steps of unlockAll with the mutex held so often, and of lockAll with so many rounds to go. */
  function LoopSteps(rounds: int): int {
    1 + 6 * rounds
  }

  function StepsLeft(s: State, t: Thread): int
    requires t in s.locals
  {
    var held := s.Held(t);
    match s.locals[t].pc
    case Idle => 0
    case Acquire(c) => 4 + if c == User then 0 else LoopSteps(c.rounds)
    case TestFree(c) => 3 + if c == User then 0 else LoopSteps(c.rounds)
    case TakeOver(c) => 2 + if c == User then 0 else LoopSteps(c.rounds)
    case CountUp(c) => 1 + if c == User then 0 else LoopSteps(c.rounds)
    case CountDown(c) => 4 + if c == User then 0 else LoopSteps(held - 1)
    case TestLast(c) => 3 + if c == User then 0 else LoopSteps(held - 1)
    case HandOver(c) => 2 + if c == User then 0 else LoopSteps(held - 1)
    case Release(c) => 1 + if c == User then 0 else LoopSteps(held - 1)
    case LockLoop(left) => LoopSteps(left)
    case UnlockLoop(_) => LoopSteps(held)
    case GuardTest => 1 + LoopSteps(held)
  }

  /** What its own locks exceed its own unlocks by once the operation is over. */
  function NetAfter(l: Local): int {
    match l.pc
    case Acquire(c) => l.net + if c == User then 1 else 0
    case CountDown(c) => l.net - if c == User then 1 else 0
    case TestLast(c) => l.net - if c == User then 1 else 0
    case HandOver(c) => l.net - if c == User then 1 else 0
    case Release(c) => l.net - if c == User then 1 else 0
    case _ => l.net
  }

  /** The operation makes a guard. */
  predicate MakesGuard(pc: Pc) {
    || pc.GuardTest? || pc.UnlockLoop?
    || ((pc.CountDown? || pc.TestLast? || pc.HandOver? || pc.Release?) && pc.caller != User)
  }

  ghost predicate SameOutcome(s: State, next: State, t: Thread)
    requires t in s.locals && t in next.locals
  {
    var l, m := s.locals[t], next.locals[t];
    && NetAfter(m) == NetAfter(l)
    && if MakesGuard(l.pc) && !MakesGuard(m.pc) then
         |m.guards| == |l.guards| + 1 && m.guards[..|l.guards|] == l.guards && next.Held(t) == 0 && m.pc == Idle
       else m.guards == l.guards && MakesGuard(m.pc) == MakesGuard(l.pc)
  }

  lemma AdvancesAlone(s: State, t: Thread)
    requires Inv(s) && IsFree(s, t) && s.locals[t].pc != Idle
    ensures Advance(s, t).Some? && IsFree(Advance(s, t).value, t)
    ensures 0 <= StepsLeft(Advance(s, t).value, t) < StepsLeft(s, t)
  {
    assert LocalInv(s, t);
    AdvanceKeepsOwnerInv(s, t);
    hide Saved, InFlight;
  }

  lemma AdvanceKeepsOutcome(s: State, t: Thread)
    requires Inv(s) && IsFree(s, t) && s.locals[t].pc != Idle && Advance(s, t).Some?
    ensures SameOutcome(s, Advance(s, t).value, t)
  {
    assert LocalInv(s, t);
    hide Saved, InFlight;
  }

  // ---------------------------------------------------------------- A thread alone

  /** Steps of t alone, after which it is idle. */
  ghost predicate IsAlone(path: seq<State>, t: Thread) {
    && path != [] && (forall i :: 0 <= i < |path| ==> t in path[i].locals)
    && (forall i :: 0 <= i < |path| - 1 ==> Advance(path[i], t) == Some(path[i + 1]))
    && path[|path| - 1].locals[t].pc == Idle
  }

  lemma {:induction false} FinishesAlone(s: State, t: Thread) returns (path: seq<State>)
    requires Inv(s) && IsFree(s, t)
    ensures IsAlone(path, t) && path[0] == s && Inv(path[|path| - 1])
    ensures s.locals[t].pc == Idle ==> path == [s]
    ensures NetAfter(s.locals[t]) == path[|path| - 1].locals[t].net
    ensures var l, m := s.locals[t], path[|path| - 1].locals[t];
            if MakesGuard(l.pc) then
              |m.guards| == |l.guards| + 1 && m.guards[..|l.guards|] == l.guards && path[|path| - 1].Held(t) == 0
            else m.guards == l.guards
    decreases StepsLeft(s, t)
  {
    if s.locals[t].pc == Idle {
      path := [s];
    } else {
      AdvancesAlone(s, t);
      AdvanceKeepsOutcome(s, t);
      var next := Advance(s, t).value;
      StepKeepsInv(s, t, next);
      hide Advance, Inv, StepsLeft, IsFree;
      var rest := FinishesAlone(next, t);
      path := [s] + rest;
      AloneFrom(s, rest, t);
    }
  }

  lemma AloneFrom(s: State, rest: seq<State>, t: Thread)
    requires IsAlone(rest, t) && t in s.locals && Advance(s, t) == Some(rest[0])
    ensures IsAlone([s] + rest, t)
  {
    hide Advance;
  }

  /** What a thread holds when it is idle: its own locks less its own unlocks, less what its guards have put aside. */
  lemma HeldWhenIdle(s: State, t: Thread)
    requires Inv(s) && t in s.locals && s.locals[t].pc == Idle
    ensures s.Held(t) == s.locals[t].net - Saved(s.locals[t].guards)
  {
    assert LocalInv(s, t);
    hide Saved;
  }

  // ---------------------------------------------------------------- The operations

  /** lock takes the lock once more. */
  lemma LockLocks(run: seq<State>, threads: seq<Thread>, t: Thread) returns (path: seq<State>)
    requires IsRun(run, threads) && IsFree(run[|run| - 1], t) && run[|run| - 1].locals[t].pc == Idle
    ensures IsAlone(path, t) && Begins(run[|run| - 1], t, path[0])
    ensures path[|path| - 1].Held(t) == run[|run| - 1].Held(t) + 1
    ensures path[|path| - 1].locals[t].guards == run[|run| - 1].locals[t].guards
  {
    var s := run[|run| - 1];
    path := Does(run, threads, t, s.At(t, Acquire(User)));
    HeldWhenIdle(s, t);
    HeldWhenIdle(path[|path| - 1], t);
  }

  /** unlock, which only the holder may call, gives the lock back once. */
  lemma UnlockUnlocks(run: seq<State>, threads: seq<Thread>, t: Thread) returns (path: seq<State>)
    requires IsRun(run, threads) && IsFree(run[|run| - 1], t) && run[|run| - 1].locals[t].pc == Idle
    requires run[|run| - 1].IsSelfLocked(t)
    ensures IsAlone(path, t) && Begins(run[|run| - 1], t, path[0])
    ensures path[|path| - 1].Held(t) == run[|run| - 1].Held(t) - 1
    ensures path[|path| - 1].locals[t].guards == run[|run| - 1].locals[t].guards
  {
    var s := run[|run| - 1];
    path := Does(run, threads, t, s.At(t, CountDown(User)));
    HeldWhenIdle(s, t);
    HeldWhenIdle(path[|path| - 1], t);
  }

  /** A new guard gives the lock back entirely and remembers how often it was held. */
  lemma GuardTakes(run: seq<State>, threads: seq<Thread>, t: Thread) returns (path: seq<State>)
    requires IsRun(run, threads) && IsFree(run[|run| - 1], t) && run[|run| - 1].locals[t].pc == Idle
    ensures IsAlone(path, t) && Begins(run[|run| - 1], t, path[0]) && path[|path| - 1].Held(t) == 0
    ensures var before, after := run[|run| - 1].locals[t].guards, path[|path| - 1].locals[t].guards;
            && |after| == |before| + 1 && after[..|before|] == before
            && after[|before|].lockedCount == run[|run| - 1].Held(t)
  {
    var s := run[|run| - 1];
    path := Does(run, threads, t, s.At(t, GuardTest));
    HeldWhenIdle(s, t);
    HeldWhenIdle(path[|path| - 1], t);
    var before, after := s.locals[t].guards, path[|path| - 1].locals[t].guards;
    assert after == before + [after[|before|]];
    SavedStep(before, after[|before|]);
  }

  /** The end of a guard takes the lock again as often as it had been held. */
  lemma GuardGivesBack(run: seq<State>, threads: seq<Thread>, t: Thread) returns (path: seq<State>)
    requires IsRun(run, threads) && IsFree(run[|run| - 1], t) && run[|run| - 1].locals[t].pc == Idle
    requires run[|run| - 1].locals[t].guards != []
    ensures IsAlone(path, t) && Begins(run[|run| - 1], t, path[0])
    ensures var before, last := run[|run| - 1].locals[t].guards, |run[|run| - 1].locals[t].guards| - 1;
            && path[|path| - 1].locals[t].guards == before[..last]
            && path[|path| - 1].Held(t) == run[|run| - 1].Held(t) + before[last].lockedCount
  {
    var s := run[|run| - 1];
    path := Does(run, threads, t, Leave(s, t));
    HeldWhenIdle(s, t);
    HeldWhenIdle(path[|path| - 1], t);
    var before, last := s.locals[t].guards, |s.locals[t].guards| - 1;
    assert before == before[..last] + [before[last]];
    SavedStep(before[..last], before[last]);
  }

  /** An operation begun is brought to its end. */
  lemma Does(run: seq<State>, threads: seq<Thread>, t: Thread, begun: State) returns (path: seq<State>)
    requires IsRun(run, threads) && IsFree(run[|run| - 1], t) && Begins(run[|run| - 1], t, begun)
    ensures IsAlone(path, t) && path[0] == begun
    ensures Inv(run[|run| - 1]) && Inv(path[|path| - 1])
    ensures t in begun.locals && NetAfter(begun.locals[t]) == path[|path| - 1].locals[t].net
    ensures var l, m := begun.locals[t], path[|path| - 1].locals[t];
            if MakesGuard(l.pc) then
              |m.guards| == |l.guards| + 1 && m.guards[..|l.guards|] == l.guards && path[|path| - 1].Held(t) == 0
            else m.guards == l.guards
  {
    RunKeepsInv(run, threads, |run| - 1);
    StepKeepsInv(run[|run| - 1], t, begun);
    assert IsFree(begun, t);
    hide Inv, Begins;
    path := FinishesAlone(begun, t);
  }
}
