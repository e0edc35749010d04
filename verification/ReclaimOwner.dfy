/** The steps of the flag owner keep the invariant, and so does every action and every run. */
module ReclaimOwner {
  import opened Prelude
  import opened Reclaim
  import opened ReclaimInvariant
  import opened ReclaimSteps

  predicate Phase1(step: OwnStep) { step.P1Want? || step.P1Inside? || step.P1Deleting? || step.P1Clearing? }

  predicate Phase2(step: OwnStep) { step.P2Creating? }

  predicate Phase3(step: OwnStep) { step.P3Want? || step.P3Inside? }

  predicate Phase4(step: OwnStep) { step.P4Checking? || step.P4Dispatching? }

  predicate Decide(step: OwnStep) { step.Registered? || step.Reading? || step.Got? || step.Releasing? }

  predicate Restart(step: OwnStep) {
    step.Dispatching? || step.Sampling? || step.Storing? || step.Starting? || step.InStart?
  }

  /** The situation in which the owner takes a step. */
  predicate OwnerAt(s: State, t: Tid, th: Thread) {
    && At(s, t, th) && th.stack.Empty? && th.pc.Own?
    && Handles(s) && s.owner == Some(t)
  }

  lemma Phase1Frame(s: State, t: Tid, th: Thread, env: Env, s': State)
    requires OwnerAt(s, t, th) && Phase1(th.pc.step) && RegisterStep(s, t, th, th.pc.role, env) == Some(s')
    ensures OwnerFrame(s, s', t) && Scalars(s') && KeepsPromises(s, s', t)
  {
  }

  lemma Phase1Handles(s: State, t: Tid, th: Thread, env: Env, s': State)
    requires OwnerAt(s, t, th) && Phase1(th.pc.step) && RegisterStep(s, t, th, th.pc.role, env) == Some(s')
    ensures Handles(s')
  {
  }

  lemma Phase1Holds(s: State, t: Tid, th: Thread, env: Env, s': State)
    requires OwnerAt(s, t, th) && Phase1(th.pc.step) && RegisterStep(s, t, th, th.pc.role, env) == Some(s')
    ensures t in s'.threads && Holds(s', t, s'.threads[t])
  {
  }

  lemma EnteringPcOk(s: State, t: Tid, th: Thread, env: Env, s': State)
    requires OwnerAt(s, t, th) && (th.pc.step.P1Want? || th.pc.step.P1Inside?)
    requires RegisterStep(s, t, th, th.pc.role, env) == Some(s')
    ensures t in s'.threads && PcOk(s', s'.threads[t])
  {
  }

  lemma ClearingPcOk(s: State, t: Tid, th: Thread, env: Env, s': State)
    requires OwnerAt(s, t, th) && (th.pc.step.P1Deleting? || th.pc.step.P1Clearing?)
    requires RegisterStep(s, t, th, th.pc.role, env) == Some(s')
    ensures t in s'.threads && PcOk(s', s'.threads[t])
  {
  }

  lemma Phase2Local(s: State, t: Tid, th: Thread, env: Env, s': State)
    requires OwnerAt(s, t, th) && Phase2(th.pc.step) && RegisterStep(s, t, th, th.pc.role, env) == Some(s')
    ensures OwnerFrame(s, s', t) && Scalars(s') && Handles(s')
    ensures KeepsPromises(s, s', t) && Holds(s', t, s'.threads[t])
  {
  }

  lemma Phase2PcOk(s: State, t: Tid, th: Thread, env: Env, s': State)
    requires OwnerAt(s, t, th) && Phase2(th.pc.step) && RegisterStep(s, t, th, th.pc.role, env) == Some(s')
    ensures t in s'.threads && PcOk(s', s'.threads[t])
  {
  }

  lemma Phase3Local(s: State, t: Tid, th: Thread, env: Env, s': State)
    requires OwnerAt(s, t, th) && Phase3(th.pc.step) && RegisterStep(s, t, th, th.pc.role, env) == Some(s')
    ensures OwnerFrame(s, s', t) && Scalars(s') && Handles(s')
    ensures KeepsPromises(s, s', t) && Holds(s', t, s'.threads[t])
  {
  }

  lemma Phase3PcOk(s: State, t: Tid, th: Thread, env: Env, s': State)
    requires OwnerAt(s, t, th) && Phase3(th.pc.step) && RegisterStep(s, t, th, th.pc.role, env) == Some(s')
    ensures t in s'.threads && PcOk(s', s'.threads[t])
  {
  }

  lemma Phase4Local(s: State, t: Tid, th: Thread, env: Env, s': State)
    requires OwnerAt(s, t, th) && Phase4(th.pc.step) && RegisterStep(s, t, th, th.pc.role, env) == Some(s')
    ensures OwnerFrame(s, s', t) && Scalars(s') && Handles(s')
    ensures KeepsPromises(s, s', t) && Holds(s', t, s'.threads[t])
  {
  }

  lemma Phase4PcOk(s: State, t: Tid, th: Thread, env: Env, s': State)
    requires OwnerAt(s, t, th) && Phase4(th.pc.step) && RegisterStep(s, t, th, th.pc.role, env) == Some(s')
    ensures t in s'.threads && PcOk(s', s'.threads[t])
  {
  }

  lemma DecideFrame(s: State, t: Tid, th: Thread, s': State)
    requires OwnerAt(s, t, th) && Decide(th.pc.step) && RestartStep(s, t, th, th.pc.role) == Some(s')
    ensures OwnerFrame(s, s', t) && Scalars(s') && Handles(s') && KeepsPromises(s, s', t)
  {
  }

  lemma DecideHolds(s: State, t: Tid, th: Thread, s': State)
    requires OwnerAt(s, t, th) && Decide(th.pc.step) && RestartStep(s, t, th, th.pc.role) == Some(s')
    ensures t in s'.threads && Holds(s', t, s'.threads[t])
  {
  }

  lemma DecidePcOk(s: State, t: Tid, th: Thread, s': State)
    requires OwnerAt(s, t, th) && Decide(th.pc.step) && RestartStep(s, t, th, th.pc.role) == Some(s')
    ensures t in s'.threads && PcOk(s', s'.threads[t])
  {
    match th.pc.step
    case Registered =>
    case Reading =>
    case Got(_) =>
    case _ =>
  }

  lemma RestartLocal(s: State, t: Tid, th: Thread, s': State)
    requires OwnerAt(s, t, th) && Restart(th.pc.step) && RestartStep(s, t, th, th.pc.role) == Some(s')
    ensures OwnerFrame(s, s', t) && Scalars(s') && Handles(s')
    ensures KeepsPromises(s, s', t) && Holds(s', t, s'.threads[t])
  {
  }

  lemma RestartPcOk(s: State, t: Tid, th: Thread, s': State)
    requires OwnerAt(s, t, th) && Restart(th.pc.step) && RestartStep(s, t, th, th.pc.role) == Some(s')
    ensures t in s'.threads && PcOk(s', s'.threads[t])
  {
  }

  lemma OwnerKeeps(s: State, t: Tid, th: Thread, env: Env, s': State)
    requires Inv(s) && t in s.threads && th == s.threads[t] && th.stack.Empty? && th.pc.Own?
    requires OwnerStep(s, t, th, th.pc.role, env) == Some(s')
    ensures Inv(s') && Onward(s, s')
  {
    assert OwnerAt(s, t, th);
    if Phase1(th.pc.step) {
      Phase1Frame(s, t, th, env, s');
      Phase1Handles(s, t, th, env, s');
      Phase1Holds(s, t, th, env, s');
      if th.pc.step.P1Want? || th.pc.step.P1Inside? {
        EnteringPcOk(s, t, th, env, s');
      } else {
        ClearingPcOk(s, t, th, env, s');
      }
    } else if Phase2(th.pc.step) {
      Phase2Local(s, t, th, env, s');
      Phase2PcOk(s, t, th, env, s');
    } else if Phase3(th.pc.step) {
      Phase3Local(s, t, th, env, s');
      Phase3PcOk(s, t, th, env, s');
    } else if Phase4(th.pc.step) {
      Phase4Local(s, t, th, env, s');
      Phase4PcOk(s, t, th, env, s');
    } else if Decide(th.pc.step) {
      DecideFrame(s, t, th, s');
      DecideHolds(s, t, th, s');
      DecidePcOk(s, t, th, s');
    } else {
      RestartLocal(s, t, th, s');
      RestartPcOk(s, t, th, s');
    }
    OwnerFrameKnown(s, s', t);
    OthersKeep(s, s', t);
  }

  /** Losing the race for positioning_active: start_positioning() defers, the watchdog sleeps on. */
  predicate Loses(s: State, t: Tid, th: Thread, s': State) {
    && t in s.threads && th == s.threads[t] && th.stack.Empty? && s.active
    && (th.pc.StExchange? || th.pc.WdExchange?)
    && s' == SetThread(s, t, if th.pc.StExchange? then Goto(HandOver(s, th), StReturned) else Goto(th, WdSleeping))
  }

  lemma LoseLocal(s: State, t: Tid, th: Thread, s': State)
    requires At(s, t, th) && Loses(s, t, th, s')
    requires th.pc.StExchange? ==> s'.liveStarts > th.since.starts || OwnerPending(s')
    ensures t in s'.threads && Local(s', t, s'.threads[t])
  {
  }

  lemma LoseKeeps(s: State, t: Tid, th: Thread, s': State)
    requires Inv(s) && Loses(s, t, th, s')
    ensures Inv(s') && Onward(s, s')
  {
    assert Local(s, t, th);
    assert Quiet(s, s', t);
    if OwnerPending(s) {
      PendingStays(s, s', t);
    }
    LoseLocal(s, t, th, s');
    QuietKeeps(s, s', t);
  }

  /** Winning positioning_active, from start_positioning() or from the watchdog. */
  predicate Wins(s: State, t: Tid, th: Thread, s': State) {
    && t in s.threads && th == s.threads[t] && th.stack.Empty? && !s.active
    && (th.pc.StExchange? || th.pc.WdExchange?)
    && s' == SetThread(s, t, if th.pc.StExchange? then Goto(HandOver(s, th), StSpawning)
                             else Thread(Own(Watchdog, P1Want), th.stack, Since(0, 0, s.stops))).(
               active := true, owner := Some(t))
  }

  lemma WinLocal(s: State, t: Tid, th: Thread, s': State)
    requires Scalars(s) && Local(s, t, th) && Wins(s, t, th, s')
    ensures t in s'.threads && Local(s', t, s'.threads[t])
    ensures Scalars(s') && KeepsPromises(s, s', t)
  {
  }

  lemma WinKeeps(s: State, t: Tid, th: Thread, s': State)
    requires Inv(s) && Wins(s, t, th, s')
    ensures Inv(s') && Onward(s, s')
  {
    assert Local(s, t, th);
    WinLocal(s, t, th, s');
    OthersKeep(s, s', t);
    assert Handles(s');
  }

  lemma ExchangeKeeps(s: State, t: Tid, th: Thread, s': State)
    requires Inv(s) && t in s.threads && th == s.threads[t] && th.stack.Empty?
    requires th.pc.StExchange? || th.pc.WdExchange?
    requires (if th.pc.StExchange? then StartStep(s, t, th) else WatchdogStep(s, t, th)) == Some(s')
    ensures Inv(s') && Onward(s, s')
  {
    if s.active {
      LoseKeeps(s, t, th, s');
    } else {
      WinKeeps(s, t, th, s');
    }
  }

  /** The recovery thread takes over the flag from the call that spawned it. */
  lemma SpawnLocal(s: State, t: Tid, th: Thread, s': State)
    requires At(s, t, th) && th.stack.Empty? && th.pc.StSpawning?
    requires s.nextTid !in s.threads && s.nextTid !in s.readers
    requires s.writer != Some(s.nextTid) && s.emitter != Some(s.nextTid)
    requires StartStep(s, t, th) == Some(s')
    ensures t in s'.threads && Local(s', t, s'.threads[t])
    ensures s.nextTid in s'.threads && Local(s', s.nextTid, s'.threads[s.nextTid])
    ensures Scalars(s') && KeepsPromises(s, s', t)
  {
  }

  lemma SpawnKeeps(s: State, t: Tid, th: Thread, s': State)
    requires Inv(s) && t in s.threads && th == s.threads[t] && th.stack.Empty? && th.pc.StSpawning?
    requires StartStep(s, t, th) == Some(s')
    ensures Inv(s') && Onward(s, s')
  {
    assert Local(s, t, th);
    SpawnLocal(s, t, th, s');
    assert KeepsOthers(s, s', t);
    OthersKeep(s, s', t);
    assert Known(s');
    assert Handles(s');
  }

  lemma BeginLocal(s: State, entry: Entry, s': State)
    requires Scalars(s) && s.nextTid !in s.threads && s.nextTid !in s.readers
    requires s.writer != Some(s.nextTid) && s.emitter != Some(s.nextTid) && s.owner != Some(s.nextTid)
    requires Next(s, Begin(entry)) == Some(s')
    ensures s.nextTid in s'.threads && Local(s', s.nextTid, s'.threads[s.nextTid])
    ensures Scalars(s') && KeepsPromises(s, s', s.nextTid)
  {
  }

  lemma BeginKeeps(s: State, entry: Entry, s': State)
    requires Inv(s) && Next(s, Begin(entry)) == Some(s')
    ensures Inv(s') && Onward(s, s')
  {
    var t := s.nextTid;
    BeginLocal(s, entry, s');
    assert KeepsOthers(s, s', t);
    OthersKeep(s, s', t);
    assert Known(s');
    assert Handles(s');
  }

  lemma AdvanceKeeps(s: State, ms: nat, s': State)
    requires Inv(s) && Next(s, Advance(ms)) == Some(s')
    ensures Inv(s') && Onward(s, s')
  {
    assert s.nextTid !in s.threads;
    assert Respects(s, s', s.nextTid);
    OthersKeep(s, s', s.nextTid);
  }

  lemma MoveKeeps(s: State, t: Tid, env: Env, s': State)
    requires Inv(s) && Next(s, Move(t, env)) == Some(s')
    ensures Inv(s') && Onward(s, s')
  {
    var th := s.threads[t];
    if th.stack.Push? {
      FrameKeeps(s, t, th, env, s');
    } else if env.CallBack? {
      CallBackKeeps(s, t, th, env, s');
    } else if th.pc.Own? {
      OwnerKeeps(s, t, th, env, s');
    } else if th.pc.StExchange? || th.pc.WdExchange? {
      ExchangeKeeps(s, t, th, s');
    } else if th.pc.StSpawning? {
      SpawnKeeps(s, t, th, s');
    } else if InSection(th.pc) || AfterSection(th.pc) {
      StartKeeps(s, t, th, s');
    } else if StopStep(s, t, th).Some? {
      StopKeeps(s, t, th, s');
    } else {
      WatchdogKeeps(s, t, th, s');
    }
  }

  lemma NextKeeps(s: State, a: Action, s': State)
    requires Inv(s) && Next(s, a) == Some(s')
    ensures Inv(s') && Onward(s, s')
  {
    match a
    case Advance(ms) => AdvanceKeeps(s, ms, s');
    case Begin(entry) => BeginKeeps(s, entry, s');
    case Move(t, env) => MoveKeeps(s, t, env, s');
  }

  lemma InitHolds(clock: nat)
    requires 0 < clock < UINT64
    ensures Inv(Init(clock))
  {
    var s := Init(clock);
    assert s.threads.Keys == {0};
    assert Local(s, 0, s.threads[0]);
  }

  lemma {:induction false} ExecKeeps(s: State, acts: seq<Action>)
    requires Inv(s)
    ensures Inv(Exec(s, acts))
    decreases |acts|
  {
    if acts != [] {
      var r := Next(s, acts[0]);
      if r.Some? {
        NextKeeps(s, acts[0], r.value);
      }
      ExecKeeps(After(s, acts[0]), acts[1..]);
    }
  }

  /** Every state of every interleaving satisfies the invariant. */
  lemma ReachableInv(clock: nat, acts: seq<Action>)
    requires 0 < clock < UINT64
    ensures Inv(Exec(Init(clock), acts))
  {
    InitHolds(clock);
    ExecKeeps(Init(clock), acts);
  }
}
