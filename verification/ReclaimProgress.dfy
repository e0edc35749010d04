/** When the protocol can come to rest: exactly as long as no data callback runs inside an emission. */
module ReclaimProgress {
  import opened Prelude
  import opened Reclaim
  import opened ReclaimInvariant
  import opened ReclaimOwner
  import opened ReclaimMoves
  import opened ReclaimTheorems

  // --- A nested data callback ----------------------------------------------------------------

  predicate IsNested(s: State, t: Tid) { t in s.threads && Nested(s.threads[t]) }

  predicate NobodyNested(s: State) { forall t :: t in s.threads ==> !Nested(s.threads[t]) }

  /** The HAL, called by thread t inside an emission of that thread, reports data on it. */
  predicate NestsData(s: State, t: Tid, a: Action) {
    && a.Move? && a.t == t && a.env.CallBack? && IsData(a.env.kind)
    && t in s.threads && s.threads[t].stack.Push? && FrameInHal(s.threads[t].stack.top)
    && Emissions(s.threads[t].stack) > 0
  }

  lemma NewThread(s: State, a: Action, s': State, t: Tid)
    requires Inv(s) && Next(s, a) == Some(s') && t !in s.threads && t in s'.threads
    ensures s'.threads[t].stack.Empty?
  {
    if a.Move? {
      var th := s.threads[a.t];
      if th.stack.Push? {
        FrameMoves(s, a.t, a.env, s');
      } else if !a.env.CallBack? && !th.pc.StSpawning? {
        PcMoves(s, a.t, a.env, s');
      }
    }
  }

  lemma CallBackNests(s: State, t: Tid, th: Thread, env: Env, s': State)
    requires t in s.threads && th == s.threads[t] && th.stack.Push? && AllCalling(th.stack.below) && env.CallBack?
    requires FrameStep(s, t, th, env) == Some(s')
    ensures t in s'.threads && !Nested(th)
    ensures Nested(s'.threads[t]) <==> NestsData(s, t, Move(t, env))
  {
  }

  lemma FrameNests(s: State, t: Tid, th: Thread, env: Env, s': State)
    requires t in s.threads && th == s.threads[t] && th.stack.Push? && AllCalling(th.stack.below) && !env.CallBack?
    requires Emissions(th.stack) > 0 ==> s.emitter == Some(t)
    requires FrameStep(s, t, th, env) == Some(s')
    ensures t in s'.threads && (Nested(s'.threads[t]) <==> Nested(th))
  {
    match th.stack.top
    case CbWant(_) =>
    case CbInside(_) =>
    case CbStoring(_, _) =>
    case CbWantEmit(_) =>
    case CbEmitting(_) =>
    case CbCalling =>
    case CbLeaving =>
  }

  /** A data callback comes to be nested exactly when the HAL nests one. */
  lemma NestedByCallBackOnly(s: State, t: Tid, a: Action, s': State)
    requires Inv(s) && Next(s, a) == Some(s')
    ensures IsNested(s', t) <==> IsNested(s, t) || NestsData(s, t, a)
  {
    if t !in s.threads {
      if t in s'.threads {
        NewThread(s, a, s', t);
      }
    } else if !a.Move? || a.t != t {
      OtherActionLeaves(s, a, s', t);
    } else {
      var th := s.threads[t];
      assert Local(s, t, th);
      if th.stack.Push? && a.env.CallBack? {
        CallBackNests(s, t, th, a.env, s');
      } else if th.stack.Push? {
        FrameNests(s, t, th, a.env, s');
      } else if !a.env.CallBack? {
        PcKeepsStack(s, t, th, a.env, s');
      }
    }
  }

  /** Such a callback waits for the emit_mutex that its own thread holds. */
  lemma {:induction false} NestedForEver(s: State, t: Tid, acts: seq<Action>)
    requires Inv(s) && IsNested(s, t)
    ensures IsNested(Exec(s, acts), t)
    decreases |acts|
  {
    if acts != [] {
      var r := Next(s, acts[0]);
      if r.Some? {
        NestedByCallBackOnly(s, t, acts[0], r.value);
        NextKeeps(s, acts[0], r.value);
      }
      NestedForEver(After(s, acts[0]), t, acts[1..]);
    }
  }

  // --- Coming to rest ------------------------------------------------------------------------

  /** Every call has returned, every callback is through, the watchdog sleeps. */
  predicate Calm(s: State) { forall t :: t in s.threads ==> Resting(s.threads[t]) }

  /** Every action is a thread's own next step; no new calls, callbacks or failures. */
  predicate OwnSteps(acts: seq<Action>) {
    forall i :: 0 <= i < |acts| ==> acts[i].Move? && acts[i].env == Proceed
  }

  lemma LockHolderBusy(s: State, u: Tid)
    requires Inv(s) && u in s.threads
    requires s.writer == Some(u) || s.emitter == Some(u) || u in s.readers
    ensures !Resting(s.threads[u])
  {
    assert Local(s, u, s.threads[u]);
  }

  /** If anybody is not at rest, somebody who is not can move. */
  lemma SomebodyMoves(s: State, t: Tid) returns (u: Tid)
    requires Inv(s) && NobodyNested(s) && t in s.threads && !Resting(s.threads[t])
    ensures u in s.threads && !Resting(s.threads[u]) && CanMove(s, u)
  {
    if CanMove(s, t) {
      u := t;
    } else {
      StuckOnlyBehindHolder(s, t);
      u :| Obstructs(s, u, s.threads[t]);
      Unobstructed(s, t, u);
      LockHolderBusy(s, u);
      if !CanMove(s, u) {
        u := s.emitter.value;
        LockHolderBusy(s, u);
      }
    }
  }

  lemma OwnStepNestsNothing(s: State, u: Tid, s': State)
    requires Inv(s) && NobodyNested(s) && Next(s, Move(u, Proceed)) == Some(s')
    ensures NobodyNested(s')
  {
    forall v | v in s'.threads
      ensures !Nested(s'.threads[v])
    {
      NestedByCallBackOnly(s, v, Move(u, Proceed), s');
    }
  }

  lemma OneStepCloser(s: State) returns (u: Tid)
    requires Inv(s) && NobodyNested(s) && !Calm(s)
    ensures var s' := After(s, Move(u, Proceed));
            Inv(s') && NobodyNested(s') && TotalRank(s'.threads, s'.nextTid) < TotalRank(s.threads, s.nextTid)
  {
    var t :| t in s.threads && !Resting(s.threads[t]);
    u := SomebodyMoves(s, t);
    var s' := After(s, Move(u, Proceed));
    NextKeeps(s, Move(u, Proceed), s');
    OwnStepNestsNothing(s, u, s');
    ProceedLowers(s, u, s');
  }

  lemma {:induction false} Settles(s: State) returns (acts: seq<Action>)
    requires Inv(s) && NobodyNested(s)
    ensures OwnSteps(acts) && Calm(Exec(s, acts))
    decreases TotalRank(s.threads, s.nextTid)
  {
    if Calm(s) {
      acts := [];
    } else {
      var u := OneStepCloser(s);
      var rest := Settles(After(s, Move(u, Proceed)));
      acts := [Move(u, Proceed)] + rest;
      assert acts[1..] == rest;
    }
  }

  /** Deadlock freedom, exactly: from a reachable state the threads' own steps can bring every call and
      callback to its end if and only if no data callback is nested in an emission; and if one is,
      no actions at all can. */
  lemma ComesToRestIffNobodyNested(s: State)
    requires Reachable(s)
    ensures NobodyNested(s) <==> exists acts :: OwnSteps(acts) && Calm(Exec(s, acts))
    ensures NobodyNested(s) <==> exists acts :: Calm(Exec(s, acts))
  {
    ReachableHolds(s);
    if NobodyNested(s) {
      var acts := Settles(s);
    } else {
      var t :| t in s.threads && Nested(s.threads[t]);
      forall acts
        ensures !Calm(Exec(s, acts))
      {
        NestedForEver(s, t, acts);
      }
    }
  }

  /** No data callback is ever nested in a run in which the HAL never nests one. */
  predicate NeverNests(s: State, acts: seq<Action>)
    decreases |acts|
  {
    acts != [] ==> !Nests(s, acts[0]) && NeverNests(After(s, acts[0]), acts[1..])
  }

  predicate Nests(s: State, a: Action) { a.Move? && NestsData(s, a.t, a) }

  lemma NestingHappens(s: State, a: Action)
    requires Nests(s, a)
    ensures Next(s, a).Some?
  {
  }

  lemma ActionNests(s: State, a: Action)
    requires Inv(s) && NobodyNested(s)
    ensures NobodyNested(After(s, a)) <==> !Nests(s, a)
  {
    if Nests(s, a) {
      NestingHappens(s, a);
      NestedByCallBackOnly(s, a.t, a, After(s, a));
      assert IsNested(After(s, a), a.t);
    } else if Next(s, a).Some? {
      forall t | t in After(s, a).threads
        ensures !IsNested(After(s, a), t)
      {
        NestedByCallBackOnly(s, t, a, After(s, a));
      }
    }
  }

  lemma {:induction false} RunNests(s: State, acts: seq<Action>)
    requires Inv(s) && NobodyNested(s)
    ensures NobodyNested(Exec(s, acts)) <==> NeverNests(s, acts)
    decreases |acts|
  {
    if acts != [] {
      var s' := After(s, acts[0]);
      ActionNests(s, acts[0]);
      if Next(s, acts[0]).Some? {
        NextKeeps(s, acts[0], s');
      }
      if NobodyNested(s') {
        RunNests(s', acts[1..]);
      } else {
        var t :| t in s'.threads && Nested(s'.threads[t]);
        NestedForEver(s', t, acts[1..]);
      }
    }
  }

  /** The condition for a whole run: it leaves the service able to come to rest if and only if
      the HAL never reported data from inside an injection made during an emission. */
  lemma DeadlockFreeIffNeverNests(clock: nat, acts: seq<Action>)
    requires 0 < clock < UINT64
    ensures NeverNests(Init(clock), acts) <==> exists more :: Calm(Exec(Exec(Init(clock), acts), more))
  {
    InitHolds(clock);
    RunNests(Init(clock), acts);
    ComesToRestIffNobodyNested(Exec(Init(clock), acts));
  }
}
