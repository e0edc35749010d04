/** What the reclaim protocol guarantees in every interleaving. */
module ReclaimTheorems {
  import opened Prelude
  import opened Reclaim
  import opened ReclaimInvariant
  import opened ReclaimSteps
  import opened ReclaimOwner
  import opened ReclaimMoves

  ghost predicate Reachable(s: State) {
    exists clock: nat, acts :: 0 < clock < UINT64 && s == Exec(Init(clock), acts)
  }

  lemma ReachableHolds(s: State)
    requires Reachable(s)
    ensures Inv(s)
  {
    var clock: nat, acts :| 0 < clock < UINT64 && s == Exec(Init(clock), acts);
    ReachableInv(clock, acts);
  }

  /** The handle a thread in phase 3 has created but not installed yet. */
  predicate Carries(th: Thread, h: Handle) {
    th.pc.Own? && (th.pc.step == P3Want(Some(h)) || th.pc.step == P3Inside(Some(h)))
  }

  /** The thread has deleted the installed handle and not yet cleared the field. */
  predicate Deletes(th: Thread) { th.pc.Own? && (th.pc.step.P1Deleting? || th.pc.step.P1Clearing?) }

  // --- Conservation of handles -------------------------------------------------------------

  /** At most one thread is ever inside register_callbacks() or on its way to restart. */
  lemma OneOwner(s: State, t: Tid, u: Tid)
    requires Reachable(s) && t in s.threads && u in s.threads
    requires OwnsFlag(s.threads[t].pc) && OwnsFlag(s.threads[u].pc)
    ensures t == u && (s.booted ==> s.active)
  {
    ReachableHolds(s);
    assert Local(s, t, s.threads[t]) && Local(s, u, s.threads[u]);
  }

  lemma LiveHandles(s: State)
    requires Inv(s)
    ensures |s.live| <= 1
    ensures forall h :: h in s.live ==>
              || s.handle == Some(h)
              || (s.owner.Some? && s.owner.value in s.threads && Carries(s.threads[s.owner.value], h))
  {
  }

  /** Handles created minus handles deleted is the number of live handles: exactly one when a handle
      is installed and not being deleted, or is created and about to be installed, else none. */
  lemma HandleConservation(s: State)
    requires Reachable(s)
    ensures s.created - s.deleted == |s.live| <= 1
    ensures forall h :: h in s.live ==>
              s.handle == Some(h) || exists t :: t in s.threads && Carries(s.threads[t], h)
    ensures forall t: Tid, h: Handle :: t in s.threads && Carries(s.threads[t], h) ==> s.live == {h} && s.handle.None?
    ensures (forall t :: t in s.threads ==> !Deletes(s.threads[t])) && s.handle.Some? ==> s.live == {s.handle.value}
    ensures forall t: Tid :: t in s.threads && Deletes(s.threads[t]) ==> s.live == {}
    ensures s.owner.None? ==> s.created - s.deleted == if s.handle.Some? then 1 else 0
    ensures (forall t :: t in s.threads ==> !OwnsFlag(s.threads[t].pc)) ==> s.owner.None?
  {
    ReachableHolds(s);
    LiveHandles(s);
    forall t: Tid | t in s.threads && Deletes(s.threads[t])
      ensures s.live == {}
    {
      assert Local(s, t, s.threads[t]);
    }
    forall t: Tid, h: Handle | t in s.threads && Carries(s.threads[t], h)
      ensures s.live == {h} && s.handle.None?
    {
      assert Local(s, t, s.threads[t]);
    }
    if s.owner.Some? {
      assert Local(s, s.owner.value, s.threads[s.owner.value]);
    }
  }

  // --- Safety of handle uses ---------------------------------------------------------------

  /** While any thread holds callback_mutex shared, the installed handle is null or live
      and nobody is inside the exclusive sections, so no delete is in progress. */
  lemma SharedHoldersSeeLiveHandle(s: State, t: Tid)
    requires Reachable(s) && t in s.threads && Shares(s.threads[t]) > 0
    ensures s.handle.Some? ==> s.handle.value in s.live
    ensures forall u :: u in s.threads ==> !Excludes(s.threads[u].pc)
  {
    ReachableHolds(s);
    assert Local(s, t, s.threads[t]);
    assert t in s.readers;
    SharedMeansLive(s, t);
    forall u | u in s.threads
      ensures !Excludes(s.threads[u].pc)
    {
      assert Local(s, u, s.threads[u]);
    }
  }

  /** The thread is making, or about to make, a HAL call of the protocol itself: a delete, a mode change,
      a stop, or a start of the flag owner. The start of the fast path is not among them: it comes after the unlock. */
  predicate Calls(s: State, th: Thread) {
    && th.stack.Empty?
    && match th.pc
       case StDispatching(_) => true
       case SpStopping => true
       case Own(_, step) =>
         || (step.P1Inside? && s.handle.Some?)
         || step.P4Dispatching? || step.Dispatching? || step.Starting? || step.InStart?
       case _ => false
  }

  /** The handle it passes: a start the one it read, the others the field as it is. */
  function HandlePassed(s: State, th: Thread): Option<Handle> {
    match th.pc
    case Own(_, Starting(h)) => Some(h)
    case Own(_, InStart(h)) => Some(h)
    case _ => s.handle
  }

  predicate LiveHandle(s: State, h: Option<Handle>) { h.Some? && h.value in s.live }

  /** Deletes, mode changes, stops and every start of the flag owner are called on a handle that is
      not null and live. */
  lemma CallsUseLiveHandle(s: State, t: Tid)
    requires Reachable(s) && t in s.threads && Calls(s, s.threads[t])
    ensures LiveHandle(s, HandlePassed(s, s.threads[t]))
  {
    ReachableHolds(s);
    UsesLiveHandle(s, t);
  }

  lemma UsesLiveHandle(s: State, t: Tid)
    requires Inv(s) && t in s.threads && Calls(s, s.threads[t])
    ensures LiveHandle(s, HandlePassed(s, s.threads[t]))
  {
    var th := s.threads[t];
    assert Local(s, t, th);
    if Shares(th) > 0 {
      SharedMeansLive(s, t);
    }
  }

  /** The thread is injecting into the HAL, from a callback of its own or because the engine passes an
      emitted position on. These calls pass the field without looking whether it is null. */
  predicate Injects(th: Thread) { th.stack.Push? && FrameInHal(th.stack.top) }

  /** register_callbacks() has deleted the old handle and not yet installed what u_hardware_gps_new returned. */
  predicate Between(s: State) {
    s.owner.Some? && s.owner.value in s.threads && NothingInstalled(s.threads[s.owner.value].pc)
  }

  lemma InstalledIffLatest(s: State)
    requires Inv(s)
    ensures s.handle.Some? <==> !Between(s) && s.latest.Some?
  {
  }

  /** The guard that is missing: an injection passes a live handle if and only if one is installed, that is,
      unless register_callbacks() is between deleting and installing, or u_hardware_gps_new has
      last returned null or was never called. */
  lemma InjectionUsesLiveHandleIff(s: State, t: Tid)
    requires Reachable(s) && t in s.threads && Injects(s.threads[t])
    ensures LiveHandle(s, HandlePassed(s, s.threads[t])) <==> s.handle.Some?
    ensures s.handle.Some? <==> !Between(s) && s.latest.Some?
  {
    ReachableHolds(s);
    InstalledIffLatest(s);
    var th := s.threads[t];
    assert Local(s, t, th);
    assert StackShares(th.stack) > 0;
    SharedMeansLive(s, t);
  }

  // --- Locks -------------------------------------------------------------------------------

  predicate WantsShared(th: Thread) {
    if th.stack.Push? then th.stack.top.CbWant?
    else th.pc.WdWant? || (th.pc.Own? && th.pc.step.Registered? && th.pc.role != Boot)
  }

  predicate WantsExclusive(th: Thread) {
    th.stack.Empty? && th.pc.Own? && (th.pc.step.P1Want? || th.pc.step.P3Want?)
  }

  predicate WantsEmit(th: Thread) { th.stack.Push? && th.stack.top.CbWantEmit? }

  predicate CanMove(s: State, t: Tid) { Next(s, Move(t, Proceed)).Some? }

  /** Thread u holds what thread t asks for. */
  predicate Obstructs(s: State, u: Tid, th: Thread) {
    || ((WantsShared(th) || WantsExclusive(th)) && s.writer == Some(u))
    || (WantsExclusive(th) && u in s.readers)
    || (WantsEmit(th) && s.emitter == Some(u))
  }

  /** At rest and without a next round: a resting thread other than the watchdog. */
  predicate Done(th: Thread) { Resting(th) && !th.pc.WdSleeping? }

  /** A thread cannot move exactly when it is done or some thread holds what it asks for. */
  lemma StuckOnlyBehindHolder(s: State, t: Tid)
    requires t in s.threads
    ensures !CanMove(s, t) <==> Done(s.threads[t]) || exists u :: Obstructs(s, u, s.threads[t])
  {
    var th := s.threads[t];
    if s.writer.Some? {
      assert Obstructs(s, s.writer.value, th) <==>
               WantsShared(th) || WantsExclusive(th) || (WantsEmit(th) && s.emitter == s.writer);
    }
    if s.emitter.Some? {
      assert WantsEmit(th) ==> Obstructs(s, s.emitter.value, th);
    }
    if s.readers != multiset{} {
      var u :| u in s.readers;
      assert WantsExclusive(th) ==> Obstructs(s, u, th);
    }
  }

  /** A thread with callback_mutex exclusive runs no callback and asks for no lock. */
  lemma WriterAsksNothing(s: State, t: Tid)
    requires Reachable(s) && t in s.threads && s.writer == Some(t)
    ensures s.threads[t].stack.Empty? && CanMove(s, t)
    ensures !WantsShared(s.threads[t]) && !WantsExclusive(s.threads[t]) && !WantsEmit(s.threads[t])
  {
    ReachableHolds(s);
    assert Local(s, t, s.threads[t]);
  }

  /** A callback that has data to emit and has not asked for emit_mutex yet or is waiting for it. */
  predicate BeforeEmission(f: Frame) {
    match f
    case CbWant(kind) => IsData(kind)
    case CbInside(kind) => IsData(kind)
    case CbStoring(_, _) => true
    case CbWantEmit(_) => true
    case _ => false
  }

  /** A data callback runs inside an emission of the same thread. */
  predicate Nested(th: Thread) {
    th.stack.Push? && BeforeEmission(th.stack.top) && Emissions(th.stack.below) > 0
  }

  lemma HolderMoves(s: State, u: Tid)
    requires Inv(s) && u in s.threads && !Nested(s.threads[u])
    requires s.writer == Some(u) || s.emitter == Some(u)
    ensures CanMove(s, u)
  {
    assert Local(s, u, s.threads[u]);
    if s.emitter == Some(u) {
      EmitterShares(s.threads[u].stack);
      assert u in s.readers;
    }
  }

  lemma {:induction false} EmitterShares(k: Stack)
    ensures Emissions(k) <= StackShares(k)
  {
    if k.Push? {
      EmitterShares(k.below);
    }
  }

  lemma ReaderMoves(s: State, u: Tid)
    requires Inv(s) && u in s.readers
    ensures u in s.threads && (CanMove(s, u) || (WantsEmit(s.threads[u]) && s.emitter.Some?))
  {
    var th := s.threads[u];
    assert Local(s, u, th);
    assert s.writer.None?;
    if th.stack.Empty? {
      assert PcShares(th.pc);
    }
  }

  /** While no data callback is nested, whoever obstructs a thread is another thread, and it can move
      itself or only waits for the holder of emit_mutex, which can. */
  lemma NoDeadlock(s: State, t: Tid, u: Tid)
    requires Reachable(s) && t in s.threads && Obstructs(s, u, s.threads[t])
    requires forall v :: v in s.threads ==> !Nested(s.threads[v])
    ensures u != t && u in s.threads
    ensures CanMove(s, u)
         || (WantsEmit(s.threads[u]) && s.emitter.Some? && s.emitter.value !in {t, u} && CanMove(s, s.emitter.value))
  {
    ReachableHolds(s);
    Unobstructed(s, t, u);
  }

  lemma Unobstructed(s: State, t: Tid, u: Tid)
    requires Inv(s) && t in s.threads && Obstructs(s, u, s.threads[t])
    requires forall v :: v in s.threads ==> !Nested(s.threads[v])
    ensures u != t && u in s.threads
    ensures CanMove(s, u)
         || (WantsEmit(s.threads[u]) && s.emitter.Some? && s.emitter.value !in {t, u} && CanMove(s, s.emitter.value))
  {
    assert Local(s, t, s.threads[t]);
    if s.writer == Some(u) || s.emitter == Some(u) {
      HolderMoves(s, u);
    } else {
      ReaderMoves(s, u);
      if s.emitter.Some? {
        HolderMoves(s, s.emitter.value);
        assert Local(s, s.emitter.value, s.threads[s.emitter.value]);
      }
    }
  }

  /** A call of the client interface waits for a lock exactly when a callback that the HAL makes on its
      thread does: a data callback for emit_mutex, or, inside u_hardware_gps_start() only, any callback
      for callback_mutex while an exclusive phase runs. Its own code never waits. */
  lemma ClientCallsBlockOnlyInCallbacks(s: State, t: Tid)
    requires Reachable(s) && t in s.threads
    requires StartPc(s.threads[t].pc) || StopPc(s.threads[t].pc)
    requires !Done(s.threads[t])
    ensures !CanMove(s, t) <==>
              || (WantsEmit(s.threads[t]) && s.emitter.Some?)
              || (s.threads[t].pc.StInStart? && s.threads[t].stack.Push? && s.threads[t].stack.top.CbWant?
                  && s.writer.Some?)
  {
    ReachableHolds(s);
    var th := s.threads[t];
    assert Local(s, t, th);
    if th.stack.Push? && !th.pc.StInStart? {
      assert PcShares(th.pc);
      assert t in s.readers;
    }
  }

  /** Data reaches the engine from one callback at a time, and never during register_callbacks()' exclusive phases. */
  lemma EmissionsAreSerialized(s: State, t: Tid, u: Tid)
    requires Reachable(s) && t in s.threads && u in s.threads
    requires Emits(s.threads[t])
    ensures Emits(s.threads[u]) ==> t == u && Emissions(s.threads[t].stack) == 1
    ensures !Excludes(s.threads[u].pc)
  {
    ReachableHolds(s);
    assert Local(s, t, s.threads[t]) && Local(s, u, s.threads[u]);
    EmitterShares(s.threads[t].stack);
    assert t in s.readers;
  }

  // --- No start is lost --------------------------------------------------------------------

  /** From the moment start_positioning() returns, one of these holds forever after: a start on a
      then-live handle was issued since the call began; the owner of positioning_active has its start
      ahead or has been given a null handle; an attempt that ended after the call had handed its request over
      had got null. After a deferral the first to end is the attempt deferred to (FateOfDeferral). */
  lemma NoStartLost(s: State, t: Tid)
    requires Reachable(s) && t in s.threads && s.threads[t].pc.StReturned?
    ensures var since := s.threads[t].since;
            || s.liveStarts > since.starts
            || (s.active && OwnerPending(s))
            || s.nullAttempts > since.nulls
    ensures !s.active ==> s.liveStarts > s.threads[t].since.starts || s.nullAttempts > s.threads[t].since.nulls
  {
    ReachableHolds(s);
    assert Local(s, t, s.threads[t]);
  }

  lemma DeferralStep(s: State, t: Tid, s': State)
    requires t in s.threads && s.threads[t].stack.Empty?
    requires s.threads[t].pc.StTry? || s.threads[t].pc.StExchange?
    requires Next(s, Move(t, Proceed)) == Some(s') && t in s'.threads && s'.threads[t].pc.StReturned?
    ensures s' == SetThread(s, t, Goto(HandOver(s, s.threads[t]), StReturned))
    ensures if s.threads[t].pc.StTry? then s.writer.Some? else s.active
  {
  }

  /** When a call returns by deferring to somebody else, at the try-lock or at the exchange, that attempt still
      has its outcome ahead or a start was issued since the call began; and null outcomes count from here. */
  lemma DeferralMeetsAttempt(s: State, t: Tid, s': State)
    requires Reachable(s) && t in s.threads && s.threads[t].stack.Empty?
    requires s.threads[t].pc.StTry? || s.threads[t].pc.StExchange?
    requires Next(s, Move(t, Proceed)) == Some(s') && t in s'.threads && s'.threads[t].pc.StReturned?
    ensures s.liveStarts > s.threads[t].since.starts || (s'.active && OwnerPending(s'))
    ensures s'.threads[t].since == s.threads[t].since.(nulls := s'.nullAttempts)
  {
    ReachableHolds(s);
    var th := s.threads[t];
    assert Local(s, t, th);
    DeferralStep(s, t, s');
    assert Quiet(s, s', t);
    if th.pc.StTry? {
      WriterPending(s);
    }
    if OwnerPending(s) {
      PendingStays(s, s', t);
    }
  }

  lemma OwnMoveDecides(s: State, t: Tid, env: Env, s': State)
    requires Inv(s) && Inv(s') && s.booted && s.owner == Some(t) && OwnerPending(s)
    requires Next(s, Move(t, env)) == Some(s')
    ensures || OwnerPending(s') || s'.liveStarts > s.liveStarts
            || (s'.nullAttempts > s.nullAttempts && s'.owner.None?)
  {
    var th := s.threads[t];
    assert Local(s, t, th);
    if th.stack.Push? {
      FrameMoves(s, t, env, s');
      FrameSame(s, t, th, env, s');
      assert Local(s', t, s'.threads[t]);
    } else if env.CallBack? {
      assert s'.threads[t].pc == th.pc;
    } else if th.pc.StSpawning? {
      SpawnLocal(s, t, th, s');
    } else {
      OwnerMoves(s, t, th, env, s');
    }
  }

  /** The attempt of the owner ends only with its start issued on a live handle or with a null outcome counted. */
  lemma AttemptEndsDecided(s: State, a: Action, s': State)
    requires Inv(s) && OwnerPending(s) && Next(s, a) == Some(s')
    ensures || OwnerPending(s') || s'.liveStarts > s.liveStarts
            || (s'.nullAttempts > s.nullAttempts && s'.owner.None? && !s'.active)
  {
    NextKeeps(s, a, s');
    var o := s.owner.value;
    var th := s.threads[o];
    assert Local(s, o, th);
    if a.Move? && a.t == o {
      OwnMoveDecides(s, o, a.env, s');
    } else {
      if a.Move? {
        assert Local(s, a.t, s.threads[a.t]);
      }
      OtherActionLeaves(s, a, s', o);
      assert Local(s', o, s'.threads[o]);
    }
  }

  datatype Fate = Undecided | Issued | Refused

  /** What becomes of the attempt in flight in s: its start is issued on a live handle, or it ends with null. */
  function FateOf(s: State, acts: seq<Action>): Fate
    decreases |acts|
  {
    if acts == [] then Undecided
    else
      var s' := After(s, acts[0]);
      if s'.liveStarts > s.liveStarts then Issued
      else if s'.nullAttempts > s.nullAttempts && s'.owner.None? then Refused
      else FateOf(s', acts[1..])
  }

  lemma {:induction false} FateOfAttempt(s: State, acts: seq<Action>)
    requires Inv(s) && OwnerPending(s)
    ensures FateOf(s, acts).Undecided? ==> OwnerPending(Exec(s, acts))
    decreases |acts|
  {
    if acts != [] {
      var s' := After(s, acts[0]);
      if Next(s, acts[0]).Some? {
        NextKeeps(s, acts[0], s');
        AttemptEndsDecided(s, acts[0], s');
      }
      if OwnerPending(s') {
        FateOfAttempt(s', acts[1..]);
      }
    }
  }

  /** From a deferral on, in every interleaving: the attempt deferred to stays in flight with its outcome ahead
      until a start is issued on a live handle or it ends with a null handle; it is never just dropped. */
  lemma FateOfDeferral(s: State, t: Tid, s': State, acts: seq<Action>)
    requires Reachable(s) && t in s.threads && s.threads[t].stack.Empty?
    requires s.threads[t].pc.StTry? || s.threads[t].pc.StExchange?
    requires Next(s, Move(t, Proceed)) == Some(s') && t in s'.threads && s'.threads[t].pc.StReturned?
    ensures || s.liveStarts > s.threads[t].since.starts
            || !FateOf(s', acts).Undecided?
            || OwnerPending(Exec(s', acts))
  {
    ReachableHolds(s);
    NextKeeps(s, Move(t, Proceed), s');
    DeferralMeetsAttempt(s, t, s');
    if OwnerPending(s') {
      FateOfAttempt(s', acts);
    }
  }

  /** The start is still ahead in s', or was just issued on a live handle, or `new` just yielded null. */
  predicate KeptOrDecided(s: State, th: Thread, env: Env, s': State) {
    && s'.owner.Some? && s'.owner.value in s'.threads
    && var pc' := s'.threads[s'.owner.value].pc;
       || StartAhead(pc', s'.handle)
       || (th.pc.Own? && th.pc.step.Starting? && s'.liveStarts == s.liveStarts + 1)
       || (th.pc.Own? && th.pc.step.P2Creating? && env == Fail && NullInFlight(pc', s'.handle))
  }

  lemma RegisterKeepsAhead(s: State, t: Tid, th: Thread, env: Env, s': State)
    requires OwnerAt(s, t, th) && StartAhead(th.pc, s.handle)
    requires RegisterStep(s, t, th, th.pc.role, env) == Some(s')
    ensures KeptOrDecided(s, th, env, s')
  {
  }

  lemma RestartKeepsAhead(s: State, t: Tid, th: Thread, env: Env, s': State)
    requires OwnerAt(s, t, th) && StartAhead(th.pc, s.handle)
    requires th.pc.step.Starting? ==> th.pc.step.d in s.live
    requires RestartStep(s, t, th, th.pc.role) == Some(s')
    ensures KeptOrDecided(s, th, env, s')
  {
  }

  lemma CallbackKeepsAhead(s: State, t: Tid, th: Thread, env: Env, s': State)
    requires t in s.threads && th == s.threads[t] && s.owner == Some(t) && StartAhead(th.pc, s.handle)
    requires Next(s, Move(t, env)) == Some(s')
    requires th.stack.Push? || env.CallBack?
    ensures KeptOrDecided(s, th, env, s')
  {
  }

  lemma OwnMoveKeepsAhead(s: State, t: Tid, env: Env, s': State)
    requires Inv(s) && t in s.threads && StartAhead(s.threads[t].pc, s.handle)
    requires Next(s, Move(t, env)) == Some(s')
    ensures KeptOrDecided(s, s.threads[t], env, s')
  {
    var th := s.threads[t];
    assert Local(s, t, th);
    if th.stack.Push? || env.CallBack? {
      CallbackKeepsAhead(s, t, th, env, s');
    } else if th.pc.StSpawning? {
      assert s'.owner == Some(s.nextTid);
    } else if Registering(th.pc.step) {
      RegisterKeepsAhead(s, t, th, env, s');
    } else {
      if th.pc.step.Starting? {
        UsesLiveHandle(s, t);
      }
      RestartKeepsAhead(s, t, th, env, s');
    }
  }

  /** A start that is ahead stays ahead under every action of every thread, until its owner issues it
      on a live handle or u_hardware_gps_new yields null to its owner. */
  lemma StartAheadIsKept(s: State, t: Tid, a: Action, s': State)
    requires Reachable(s) && t in s.threads && StartAhead(s.threads[t].pc, s.handle)
    requires Next(s, a) == Some(s')
    ensures if a.Move? && a.t == t then KeptOrDecided(s, s.threads[t], a.env, s')
            else s'.owner == Some(t) && t in s'.threads && StartAhead(s'.threads[t].pc, s'.handle)
  {
    ReachableHolds(s);
    assert Local(s, t, s.threads[t]);
    if a.Move? && a.t == t {
      OwnMoveKeepsAhead(s, t, a.env, s');
    } else {
      if a.Move? {
        assert Local(s, a.t, s.threads[a.t]);
      }
      OtherActionLeaves(s, a, s', t);
      NextKeeps(s, a, s');
      assert Local(s', t, s'.threads[t]);
    }
  }

  // --- Starts are configured and watched ---------------------------------------------------

  /** Every start, on the fast path too, is issued on a handle that was given the position mode. */
  lemma StartsAreConfigured(s: State, t: Tid)
    requires Reachable(s) && t in s.threads
    ensures s.threads[t].pc.StStarting? ==> s.threads[t].pc.h in s.configured
    ensures s.threads[t].pc.Own? && s.threads[t].pc.step.Starting? ==> s.threads[t].pc.step.d in s.configured
  {
    ReachableHolds(s);
    assert Local(s, t, s.threads[t]);
  }

  /** From the moment a start is issued until somebody calls stop_positioning(), the watchdog is armed:
      for the fast path counted from the beginning of the call, for an owner from the beginning of its attempt. */
  lemma StartsAreWatched(s: State, t: Tid)
    requires Reachable(s) && t in s.threads
    requires var pc := s.threads[t].pc;
             || pc.StStarting? || pc.StInStart?
             || (pc.Own? && (pc.step.Starting? || pc.step.InStart? || (pc.step.Releasing? && !pc.step.gotNull)))
    ensures s.stops == s.threads[t].since.stops ==> s.lastGps > 0
  {
    ReachableHolds(s);
    assert Local(s, t, s.threads[t]);
  }

  /** And it stays armed under every further action but a stop. */
  lemma OnlyStopsDisarm(s: State, a: Action, s': State)
    requires Reachable(s) && Next(s, a) == Some(s') && s.lastGps > 0
    ensures s'.lastGps > 0 || s'.stops > s.stops
  {
    ReachableHolds(s);
    NextKeeps(s, a, s');
  }

  // --- The clock ---------------------------------------------------------------------------

  /** The watchdog loads last_gps_ms before it reads the clock, so `now - last` never wraps. */
  lemma WatchdogNeverUnderflows(s: State, t: Tid)
    requires Reachable(s) && t in s.threads && s.threads[t].pc.WdLoaded?
    ensures s.threads[t].pc.last <= s.clock
    ensures Elapsed(s.clock, s.threads[t].pc.last) == s.clock - s.threads[t].pc.last
  {
    ReachableHolds(s);
    assert Local(s, t, s.threads[t]);
  }
}
