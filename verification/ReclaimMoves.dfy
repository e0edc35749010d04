/** What one move changes: the moving thread's entry, which comes closer to its end, and no other. */
module ReclaimMoves {
  import opened Prelude
  import opened Reclaim
  import opened ReclaimInvariant
  import opened ReclaimSteps
  import opened ReclaimOwner

  // --- The work a thread has ahead ---------------------------------------------------------

  function FrameRank(f: Frame): nat {
    match f
    case CbWant(_) => 6
    case CbInside(_) => 5
    case CbStoring(_, _) => 4
    case CbWantEmit(_) => 3
    case CbEmitting(_) => 2
    case CbCalling => 2
    case CbLeaving => 1
  }

  function StackRank(k: Stack): nat {
    match k
    case Empty => 0
    case Push(f, below) => FrameRank(f) + StackRank(below)
  }

  function OwnRank(step: OwnStep): nat {
    match step
    case P1Want => 18
    case P1Inside => 17
    case P1Deleting => 16
    case P1Clearing => 15
    case P2Creating => 14
    case P3Want(_) => 13
    case P3Inside(_) => 12
    case P4Checking => 11
    case P4Dispatching => 10
    case Registered => 9
    case Reading => 8
    case Got(_) => 7
    case Dispatching(_) => 6
    case Sampling(_) => 5
    case Storing(_, _) => 4
    case Starting(_) => 3
    case InStart(_) => 2
    case Releasing(_) => 1
  }

  /** At most how many own steps the thread takes until it is at rest, those of a thread it spawns included. */
  function PcRank(pc: Pc): nat {
    match pc
    case HalThread | StReturned | SpReturned | WdSleeping | Finished => 0
    case Own(_, step) => OwnRank(step)
    case StTry => 22
    case StInside => 21
    case StExchange => 20
    case StSpawning => 19
    case StDispatching(_) => 6
    case StUnlocking(_) => 5
    case StSampling(_) => 4
    case StStoring(_, _) => 3
    case StStarting(_) => 2
    case StInStart => 1
    case SpClearing => 5
    case SpTry => 4
    case SpInside => 3
    case SpStopping => 2
    case SpUnlocking => 1
    case WdLoaded(_) => 22
    case WdWant => 21
    case WdInside => 20
    case WdExchange => 19
  }

  function Rank(th: Thread): nat { PcRank(th.pc) + StackRank(th.stack) }

  /** Nothing left to do: a returned call, a HAL thread between callbacks, the watchdog asleep. */
  predicate Resting(th: Thread) {
    && th.stack.Empty?
    && (th.pc.HalThread? || th.pc.StReturned? || th.pc.SpReturned? || th.pc.WdSleeping? || th.pc.Finished?)
  }

  // --- One move ----------------------------------------------------------------------------

  /** Of the thread table only the entry of thread t changes, and no time passes. */
  predicate OnlyMoves(s: State, s': State, t: Tid) {
    && t in s.threads && t in s'.threads
    && s'.threads == s.threads[t := s'.threads[t]] && s'.nextTid == s.nextTid
    && s'.clock == s.clock
  }

  predicate Lowers(s': State, t: Tid, th: Thread) {
    t in s'.threads && Rank(s'.threads[t]) < Rank(th)
  }

  lemma FrameMoves(s: State, t: Tid, env: Env, s': State)
    requires Inv(s) && Next(s, Move(t, env)) == Some(s') && s.threads[t].stack.Push?
    ensures OnlyMoves(s, s', t) && s'.handle == s.handle
  {
    var th := s.threads[t];
    if Locking(th.stack.top) {
      FrameLocksLocal(s, t, th, env, s');
    } else {
      FrameWorksQuiet(s, t, th, env, s');
    }
  }

  lemma OwnerMoves(s: State, t: Tid, th: Thread, env: Env, s': State)
    requires Inv(s) && t in s.threads && th == s.threads[t] && th.stack.Empty? && th.pc.Own?
    requires OwnerStep(s, t, th, th.pc.role, env) == Some(s')
    ensures OnlyMoves(s, s', t) && KeepsPromises(s, s', t)
  {
    assert OwnerAt(s, t, th);
    if Phase1(th.pc.step) {
      Phase1Frame(s, t, th, env, s');
    } else if Phase2(th.pc.step) {
      Phase2Local(s, t, th, env, s');
    } else if Phase3(th.pc.step) {
      Phase3Local(s, t, th, env, s');
    } else if Phase4(th.pc.step) {
      Phase4Local(s, t, th, env, s');
    } else if Decide(th.pc.step) {
      DecideFrame(s, t, th, s');
    } else {
      RestartLocal(s, t, th, s');
    }
  }

  lemma ExchangeMoves(s: State, t: Tid, th: Thread, s': State)
    requires t in s.threads && (th.pc.StExchange? || th.pc.WdExchange?)
    requires (if th.pc.StExchange? then StartStep(s, t, th) else WatchdogStep(s, t, th)) == Some(s')
    ensures OnlyMoves(s, s', t) && s'.handle == s.handle && Lowers(s', t, th)
  {
  }

  /** A thread's own step, not counting callbacks that begin on it. */
  lemma PcMoves(s: State, t: Tid, env: Env, s': State)
    requires Inv(s) && Next(s, Move(t, env)) == Some(s') && !env.CallBack?
    requires s.threads[t].stack.Empty? && !s.threads[t].pc.StSpawning?
    ensures OnlyMoves(s, s', t) && (s'.handle == s.handle || s.threads[t].pc.Own?)
  {
    var th := s.threads[t];
    if th.pc.Own? {
      OwnerMoves(s, t, th, env, s');
    } else if th.pc.StExchange? || th.pc.WdExchange? {
      ExchangeMoves(s, t, th, s');
    } else if InSection(th.pc) {
      SectionQuiet(s, t, th, s');
    } else if AfterSection(th.pc) {
      FastLocal(s, t, th, s');
    } else if StopLocking(th.pc) {
      StopLocksLocal(s, t, th, s');
    } else if StopStep(s, t, th).Some? {
      StopWorksLocal(s, t, th, s');
    } else if th.pc.WdWant? || th.pc.WdInside? {
      WatchdogLocksLocal(s, t, th, s');
    } else {
      WatchdogWorksLocal(s, t, th, s');
    }
  }

  predicate Untouched(s: State, s': State, u: Tid) {
    && u in s.threads && u in s'.threads && s'.threads[u] == s.threads[u]
  }

  /** Threads other than the mover and, unless the mover owns the flag, the handle stay as they are. */
  lemma OtherActionLeaves(s: State, a: Action, s': State, u: Tid)
    requires Inv(s) && Next(s, a) == Some(s') && u in s.threads
    requires !a.Move? || a.t != u
    ensures Untouched(s, s', u)
    ensures s'.handle == s.handle || (a.Move? && s.threads[a.t].pc.Own?)
    ensures s.clock <= s'.clock
  {
    if a.Move? {
      var th := s.threads[a.t];
      if th.stack.Push? {
        FrameMoves(s, a.t, a.env, s');
      } else if !a.env.CallBack? && !th.pc.StSpawning? {
        PcMoves(s, a.t, a.env, s');
      }
    }
  }

  // --- The mover comes closer to its end ---------------------------------------------------

  lemma FrameLowers(s: State, t: Tid, th: Thread, s': State)
    requires th.stack.Push? && FrameStep(s, t, th, Proceed) == Some(s')
    ensures Lowers(s', t, th)
  {
    match th.stack.top
    case CbWant(_) =>
    case CbInside(_) =>
    case CbStoring(_, _) =>
    case CbWantEmit(_) =>
    case CbEmitting(_) =>
    case CbCalling =>
    case CbLeaving =>
  }

  lemma RegisterLowers(s: State, t: Tid, th: Thread, s': State)
    requires th.pc.Own? && RegisterStep(s, t, th, th.pc.role, Proceed) == Some(s')
    ensures Lowers(s', t, th)
  {
    match th.pc.step
    case P1Want =>
    case P1Inside =>
    case P2Creating =>
    case P3Want(_) =>
    case P3Inside(_) =>
    case P4Checking =>
    case _ =>
  }

  lemma LeavingLowers(s: State, t: Tid, th: Thread, s': State)
    requires th.pc.Own? && (th.pc.step.Registered? || th.pc.step.Releasing?)
    requires RestartStep(s, t, th, th.pc.role) == Some(s')
    ensures Lowers(s', t, th)
  {
  }

  lemma DecideLowers(s: State, t: Tid, th: Thread, s': State)
    requires th.pc.Own? && (th.pc.step.Reading? || th.pc.step.Got?)
    requires RestartStep(s, t, th, th.pc.role) == Some(s')
    ensures Lowers(s', t, th)
  {
    if th.pc.step.Reading? {
      assert s'.threads[t] == OwnGoto(th, th.pc.role, Got(s.handle));
    }
  }

  lemma ArmingLowers(s: State, t: Tid, th: Thread, s': State)
    requires th.pc.Own? && (th.pc.step.Dispatching? || th.pc.step.Sampling?)
    requires RestartStep(s, t, th, th.pc.role) == Some(s')
    ensures Lowers(s', t, th)
  {
  }

  lemma StartingLowers(s: State, t: Tid, th: Thread, s': State)
    requires th.pc.Own? && (th.pc.step.Storing? || th.pc.step.Starting? || th.pc.step.InStart?)
    requires RestartStep(s, t, th, th.pc.role) == Some(s')
    ensures Lowers(s', t, th)
  {
  }

  lemma EntryLowers(s: State, t: Tid, th: Thread, s': State)
    requires (th.pc.StTry? || th.pc.StInside?) && StartStep(s, t, th) == Some(s')
    ensures Lowers(s', t, th)
  {
    if th.pc.StTry? {
      assert s'.threads[t].pc == if s.writer.Some? then StReturned else StInside;
    } else {
      assert s.handle.None? ==> s'.threads[t] == Goto(th, StExchange);
    }
  }

  lemma ConfiguringLowers(s: State, t: Tid, th: Thread, s': State)
    requires (th.pc.StDispatching? || th.pc.StUnlocking?) && StartStep(s, t, th) == Some(s')
    ensures Lowers(s', t, th)
  {
    assert s'.threads[t].pc == if th.pc.StDispatching? then StUnlocking(th.pc.h) else StSampling(th.pc.h);
  }

  lemma FastLowers(s: State, t: Tid, th: Thread, s': State)
    requires AfterSection(th.pc) && StartStep(s, t, th) == Some(s')
    ensures Lowers(s', t, th)
  {
  }

  lemma StopEntryLowers(s: State, t: Tid, th: Thread, s': State)
    requires (th.pc.SpClearing? || th.pc.SpTry?) && StopStep(s, t, th) == Some(s')
    ensures Lowers(s', t, th)
  {
  }

  lemma StopLowers(s: State, t: Tid, th: Thread, s': State)
    requires !th.pc.SpClearing? && !th.pc.SpTry? && StopStep(s, t, th) == Some(s')
    ensures Lowers(s', t, th)
  {
    if th.pc.SpInside? {
      assert s'.threads[t].pc == if s.handle.Some? then SpStopping else SpUnlocking;
    } else {
      assert s'.threads[t].pc == if th.pc.SpStopping? then SpUnlocking else SpReturned;
    }
  }

  lemma WatchdogLowers(s: State, t: Tid, th: Thread, s': State)
    requires !th.pc.WdSleeping? && WatchdogStep(s, t, th) == Some(s')
    ensures Lowers(s', t, th)
  {
    match th.pc
    case WdLoaded(_) =>
    case WdWant =>
    case WdInside =>
    case _ =>
  }

  lemma PcLowers(s: State, t: Tid, th: Thread, s': State)
    requires PcStep(s, t, th, Proceed) == Some(s') && !th.pc.StSpawning? && !th.pc.WdSleeping?
    ensures Lowers(s', t, th)
  {
    if th.pc.Own? {
      if Registering(th.pc.step) {
        RegisterLowers(s, t, th, s');
      } else if th.pc.step.Registered? || th.pc.step.Releasing? {
        LeavingLowers(s, t, th, s');
      } else if Decide(th.pc.step) {
        DecideLowers(s, t, th, s');
      } else if th.pc.step.Dispatching? || th.pc.step.Sampling? {
        ArmingLowers(s, t, th, s');
      } else {
        StartingLowers(s, t, th, s');
      }
    } else if th.pc.StTry? || th.pc.StInside? {
      EntryLowers(s, t, th, s');
    } else if th.pc.StDispatching? || th.pc.StUnlocking? {
      ConfiguringLowers(s, t, th, s');
    } else if AfterSection(th.pc) {
      FastLowers(s, t, th, s');
    } else if th.pc.SpClearing? || th.pc.SpTry? {
      StopEntryLowers(s, t, th, s');
    } else if StopStep(s, t, th).Some? {
      StopLowers(s, t, th, s');
    } else if !th.pc.StExchange? {
      WatchdogLowers(s, t, th, s');
    }
  }

  // --- Callbacks on a thread ---------------------------------------------------------------

  predicate KeepsStack(s': State, t: Tid, th: Thread) {
    t in s'.threads && s'.threads[t].stack == th.stack
  }

  lemma RegisterKeepsStack(s: State, t: Tid, th: Thread, env: Env, s': State)
    requires th.pc.Own? && RegisterStep(s, t, th, th.pc.role, env) == Some(s')
    ensures KeepsStack(s', t, th)
  {
    match th.pc.step
    case P1Want =>
    case P1Inside =>
    case P2Creating =>
    case P3Want(_) =>
    case P3Inside(_) =>
    case P4Checking =>
    case _ =>
  }

  lemma RestartKeepsStack(s: State, t: Tid, th: Thread, s': State)
    requires th.pc.Own? && RestartStep(s, t, th, th.pc.role) == Some(s')
    ensures KeepsStack(s', t, th)
  {
    match th.pc.step
    case Registered =>
    case Reading =>
    case Got(_) =>
    case Dispatching(_) =>
    case Sampling(_) =>
    case Storing(_, _) =>
    case Starting(_) =>
    case InStart(_) =>
    case _ =>
  }

  lemma StartKeepsStack(s: State, t: Tid, th: Thread, s': State)
    requires !th.pc.StSpawning? && StartStep(s, t, th) == Some(s')
    ensures KeepsStack(s', t, th)
  {
    match th.pc
    case StTry =>
    case StInside =>
    case StDispatching(_) =>
    case StUnlocking(_) =>
    case StSampling(_) =>
    case StStoring(_, _) =>
    case StStarting(_) =>
    case StInStart =>
    case _ =>
  }

  lemma StopKeepsStack(s: State, t: Tid, th: Thread, s': State)
    requires StopStep(s, t, th) == Some(s')
    ensures KeepsStack(s', t, th)
  {
  }

  lemma WatchdogKeepsStack(s: State, t: Tid, th: Thread, s': State)
    requires WatchdogStep(s, t, th) == Some(s')
    ensures KeepsStack(s', t, th)
  {
  }

  /** A thread's own steps leave its callbacks alone. */
  lemma PcKeepsStack(s: State, t: Tid, th: Thread, env: Env, s': State)
    requires PcStep(s, t, th, env) == Some(s') && !env.CallBack? && t < s.nextTid
    ensures KeepsStack(s', t, th)
  {
    if th.pc.Own? {
      if Registering(th.pc.step) {
        RegisterKeepsStack(s, t, th, env, s');
      } else {
        RestartKeepsStack(s, t, th, s');
      }
    } else if !th.pc.StSpawning? {
      if StartStep(s, t, th).Some? {
        StartKeepsStack(s, t, th, s');
      } else if StopStep(s, t, th).Some? {
        StopKeepsStack(s, t, th, s');
      } else {
        WatchdogKeepsStack(s, t, th, s');
      }
    }
  }

  // --- The work of all threads -------------------------------------------------------------

  function TotalRank(threads: map<Tid, Thread>, n: nat): nat {
    if n == 0 then 0 else TotalRank(threads, n - 1) + if n - 1 in threads then Rank(threads[n - 1]) else 0
  }

  lemma {:induction false} TotalUpdate(threads: map<Tid, Thread>, n: nat, t: Tid, th: Thread)
    requires t in threads
    ensures TotalRank(threads[t := th], n) == TotalRank(threads, n) + if t < n then Rank(th) - Rank(threads[t]) else 0
  {
    if n > 0 {
      TotalUpdate(threads, n - 1, t, th);
    }
  }

  lemma {:induction false} TotalNew(threads: map<Tid, Thread>, n: nat, t: Tid, th: Thread)
    requires n <= t
    ensures TotalRank(threads[t := th], n) == TotalRank(threads, n)
  {
    if n > 0 {
      TotalNew(threads, n - 1, t, th);
    }
  }

  /** Handing the flag to a new recovery thread is one step closer to rest, too. */
  lemma SpawnLowers(s: State, t: Tid, s': State)
    requires Known(s) && t in s.threads && s.threads[t].stack.Empty? && s.threads[t].pc.StSpawning?
    requires Next(s, Move(t, Proceed)) == Some(s')
    ensures TotalRank(s'.threads, s'.nextTid) < TotalRank(s.threads, s.nextTid)
  {
    var caller := Goto(s.threads[t], StReturned);
    var recovery := Thread(Own(Recovery, P1Want), Empty, Since(0, 0, s.stops));
    var n := s.nextTid;
    assert s'.threads == s.threads[t := caller][n := recovery] && s'.nextTid == n + 1;
    TotalUpdate(s.threads, n, t, caller);
    TotalNew(s.threads[t := caller], n, n, recovery);
  }

  /** Every own step of a thread that is not at rest lowers the work ahead. */
  lemma ProceedLowers(s: State, t: Tid, s': State)
    requires Inv(s) && Next(s, Move(t, Proceed)) == Some(s') && !Resting(s.threads[t])
    ensures TotalRank(s'.threads, s'.nextTid) < TotalRank(s.threads, s.nextTid)
  {
    var th := s.threads[t];
    if th.stack.Empty? && th.pc.StSpawning? {
      SpawnLowers(s, t, s');
    } else {
      if th.stack.Push? {
        FrameMoves(s, t, Proceed, s');
        FrameLowers(s, t, th, s');
      } else {
        PcMoves(s, t, Proceed, s');
        PcLowers(s, t, th, s');
      }
      TotalUpdate(s.threads, s.nextTid, t, s'.threads[t]);
    }
  }
}
