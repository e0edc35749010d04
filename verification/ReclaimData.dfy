/** What data callbacks do, over all runs: every one of either kind stores a sample of the clock taken under its
    lock before it asks for emit_mutex, and reaches the engine before it ends. */
module ReclaimData {
  import opened Prelude
  import opened Reclaim
  import opened ReclaimInvariant
  import opened ReclaimOwner
  import opened ReclaimMoves
  import opened ReclaimTheorems
  import opened WatchdogTiming

  // --- Samples are of the clock ----------------------------------------------------------------

  /** On its way to a sample and its store: a data callback not yet at its request for emit_mutex, or a
      start that has sampled the clock. */
  predicate Waits(th: Thread) {
    if th.stack.Push? then
      match th.stack.top
      case CbWant(kind) => IsData(kind)
      case CbInside(kind) => IsData(kind)
      case CbStoring(_, _) => true
      case _ => false
    else th.pc.StStoring? || (th.pc.Own? && th.pc.step.Storing?)
  }

  /** Data arrives on a thread, or a start samples the clock. */
  predicate Arrives(s: State, a: Action) {
    && a.Move? && a.t in s.threads && Next(s, a).Some?
    && if a.env.CallBack? then IsData(a.env.kind)
       else
         && s.threads[a.t].stack.Empty?
         && (s.threads[a.t].pc.StSampling? || (s.threads[a.t].pc.Own? && s.threads[a.t].pc.step.Sampling?))
  }

  /** How a step of thread th into th' at time `clock` may change its sample. */
  predicate WaitKept(th: Thread, th': Thread, clock: nat, arrives: bool, stores: bool) {
    && (arrives ==> Waits(th') && !Waits(th))
    && (!arrives && Waits(th') ==> Waits(th))
    && (Waits(th) && !Waits(th') ==> stores)
    && (stores ==> Waits(th) && !Waits(th'))
    && (Sample(th').Some? && Sample(th') != Sample(th) ==> Waits(th') && Sample(th').value == clock)
  }

  predicate Kept(s: State, s': State, t: Tid, th: Thread, arrives: bool, stores: bool) {
    t in s'.threads && WaitKept(th, s'.threads[t], s.clock, arrives, stores)
  }

  lemma CallBackWaits(s: State, t: Tid, th: Thread, env: Env, s': State)
    requires env.CallBack? && Next(s, Move(t, env)) == Some(s') && th == s.threads[t]
    ensures Kept(s, s', t, th, IsData(env.kind), false)
  {
  }

  lemma FrameWaits(s: State, t: Tid, th: Thread, env: Env, s': State)
    requires th.stack.Push? && !env.CallBack? && FrameStep(s, t, th, env) == Some(s')
    requires th.stack.top.CbWant? || th.stack.top.CbInside? || th.stack.top.CbStoring?
    ensures Kept(s, s', t, th, false, Sample(th).Some?)
  {
    match th.stack.top
    case CbWant(_) =>
    case CbInside(_) =>
    case _ =>
  }

  lemma LateFrameWaits(s: State, t: Tid, th: Thread, env: Env, s': State)
    requires th.stack.Push? && !env.CallBack? && FrameStep(s, t, th, env) == Some(s')
    requires !th.stack.top.CbWant? && !th.stack.top.CbInside? && !th.stack.top.CbStoring?
    requires th.stack.below.Push? ==> FrameInHal(th.stack.below.top)
    requires th.stack.below.Empty? ==> InHal(th.pc)
    ensures Kept(s, s', t, th, false, false)
  {
    match th.stack.top
    case CbWantEmit(_) =>
    case CbEmitting(_) =>
    case CbCalling =>
    case _ =>
  }

  lemma RegisterWaits(s: State, t: Tid, th: Thread, env: Env, s': State)
    requires th.stack.Empty? && th.pc.Own? && Registering(th.pc.step)
    requires RegisterStep(s, t, th, th.pc.role, env) == Some(s')
    ensures Kept(s, s', t, th, false, false)
  {
    match th.pc.step
    case P1Want =>
    case P1Inside =>
    case P2Creating =>
    case P3Want(_) =>
    case P3Inside(_) =>
    case P4Checking =>
    case _ =>
  }

  lemma LeavingWaits(s: State, t: Tid, th: Thread, s': State)
    requires th.stack.Empty? && th.pc.Own? && (th.pc.step.Registered? || th.pc.step.Releasing?)
    requires RestartStep(s, t, th, th.pc.role) == Some(s')
    ensures Kept(s, s', t, th, false, false)
  {
  }

  lemma DecideWaits(s: State, t: Tid, th: Thread, s': State)
    requires th.stack.Empty? && th.pc.Own? && (th.pc.step.Reading? || th.pc.step.Got?)
    requires RestartStep(s, t, th, th.pc.role) == Some(s')
    ensures Kept(s, s', t, th, false, false)
  {
    if th.pc.step.Reading? {
      assert s'.threads[t] == OwnGoto(th, th.pc.role, Got(s.handle));
    }
  }

  lemma RestartWaits(s: State, t: Tid, th: Thread, s': State)
    requires th.stack.Empty? && th.pc.Own? && Restart(th.pc.step) && RestartStep(s, t, th, th.pc.role) == Some(s')
    ensures Kept(s, s', t, th, th.pc.step.Sampling?, th.pc.step.Storing?)
  {
  }

  lemma EntryWaits(s: State, t: Tid, th: Thread, s': State)
    requires th.stack.Empty? && (th.pc.StTry? || th.pc.StInside? || th.pc.StExchange?)
    requires StartStep(s, t, th) == Some(s')
    ensures Kept(s, s', t, th, false, false)
  {
    match th.pc
    case StTry =>
    case StInside =>
    case _ =>
  }

  lemma FastWaits(s: State, t: Tid, th: Thread, s': State)
    requires th.stack.Empty? && (th.pc.StDispatching? || th.pc.StUnlocking? || th.pc.StSampling?)
    requires StartStep(s, t, th) == Some(s')
    ensures Kept(s, s', t, th, th.pc.StSampling?, false)
  {
  }

  lemma StartingWaits(s: State, t: Tid, th: Thread, s': State)
    requires th.stack.Empty? && (th.pc.StStoring? || th.pc.StStarting? || th.pc.StInStart?)
    requires StartStep(s, t, th) == Some(s')
    ensures Kept(s, s', t, th, false, th.pc.StStoring?)
  {
  }

  lemma StopWaits(s: State, t: Tid, th: Thread, s': State)
    requires th.stack.Empty? && StopStep(s, t, th) == Some(s')
    ensures Kept(s, s', t, th, false, false)
  {
  }

  lemma CheckWaits(s: State, t: Tid, th: Thread, s': State)
    requires th.stack.Empty? && (th.pc.WdSleeping? || th.pc.WdLoaded?) && WatchdogStep(s, t, th) == Some(s')
    ensures Kept(s, s', t, th, false, false)
  {
  }

  lemma WatchdogWaits(s: State, t: Tid, th: Thread, s': State)
    requires th.stack.Empty? && !th.pc.WdSleeping? && !th.pc.WdLoaded? && WatchdogStep(s, t, th) == Some(s')
    ensures Kept(s, s', t, th, false, false)
  {
    match th.pc
    case WdWant =>
    case WdInside =>
    case _ =>
  }

  lemma PcWaits(s: State, t: Tid, th: Thread, env: Env, s': State)
    requires th.stack.Empty? && !env.CallBack? && PcStep(s, t, th, env) == Some(s') && t < s.nextTid
    ensures Kept(s, s', t, th, th.pc.StSampling? || (th.pc.Own? && th.pc.step.Sampling?), Sample(th).Some?)
  {
    if th.pc.Own? {
      if Registering(th.pc.step) {
        RegisterWaits(s, t, th, env, s');
      } else if th.pc.step.Registered? || th.pc.step.Releasing? {
        LeavingWaits(s, t, th, s');
      } else if th.pc.step.Reading? || th.pc.step.Got? {
        DecideWaits(s, t, th, s');
      } else {
        RestartWaits(s, t, th, s');
      }
    } else if !th.pc.StSpawning? {
      if th.pc.StTry? || th.pc.StInside? || th.pc.StExchange? {
        EntryWaits(s, t, th, s');
      } else if th.pc.StDispatching? || th.pc.StUnlocking? || th.pc.StSampling? {
        FastWaits(s, t, th, s');
      } else if StartStep(s, t, th).Some? {
        StartingWaits(s, t, th, s');
      } else if StopStep(s, t, th).Some? {
        StopWaits(s, t, th, s');
      } else if th.pc.WdSleeping? || th.pc.WdLoaded? {
        CheckWaits(s, t, th, s');
      } else {
        WatchdogWaits(s, t, th, s');
      }
    }
  }

  /** One move of thread t: it begins to wait exactly when data or a start arrives, stops waiting exactly when it
      stores, and every sample it takes is of the clock at that moment. */
  lemma MoveWaits(s: State, t: Tid, env: Env, s': State)
    requires Inv(s) && Next(s, Move(t, env)) == Some(s')
    ensures Kept(s, s', t, s.threads[t], Arrives(s, Move(t, env)), Stores(s, Move(t, env)))
  {
    var th := s.threads[t];
    assert Local(s, t, th);
    if env.CallBack? {
      CallBackWaits(s, t, th, env, s');
    } else if th.stack.Push? && !th.stack.top.CbWant? && !th.stack.top.CbInside? && !th.stack.top.CbStoring? {
      LateFrameWaits(s, t, th, env, s');
    } else if th.stack.Push? {
      FrameWaits(s, t, th, env, s');
    } else {
      PcWaits(s, t, th, env, s');
    }
  }

  // --- One data callback from beginning to end -------------------------------------------------

  /** What has been observed of a callback: when its thread took callback_mutex, whether it has since stored a sample
      of the clock not older than that, and whether it has held emit_mutex. */
  datatype Seen = Seen(locked: Option<nat>, stored: bool, emitted: bool)

  function SeenAfter(s: State, a: Action, t: Tid, seen: Seen): Seen {
    if !(a.Move? && a.t == t && Next(s, a).Some?) then seen
    else
      var s' := After(s, a);
      Seen(if seen.locked.None? && s'.readers[t] > s.readers[t] then Some(s.clock) else seen.locked,
           seen.stored || (seen.locked.Some? && Stores(s, a) && seen.locked.value <= s'.lastGps <= s.clock),
           seen.emitted || (s.emitter.None? && s'.emitter == Some(t)))
  }

  function SeenOver(s: State, acts: seq<Action>, t: Tid, seen: Seen): Seen
    decreases |acts|
  {
    if acts == [] then seen else SeenOver(After(s, acts[0]), acts[1..], t, SeenAfter(s, acts[0], t, seen))
  }

  /** How far the data callback above `below` on thread t has come, and what must have been seen of it by then. */
  predicate OnItsWay(s: State, t: Tid, kind: CallbackKind, below: Stack, seen: Seen) {
    && t in s.threads
    && var k := s.threads[t].stack;
       || (k == Push(CbWant(kind), below) && seen.locked.None?)
       || (k == Push(CbInside(kind), below) && seen.locked.Some? && seen.locked.value <= s.clock)
       || (k.Push? && k.below == below && k.top.CbStoring? && k.top.kind == kind
           && seen.locked.Some? && seen.locked.value <= k.top.now <= s.clock)
       || (k == Push(CbWantEmit(kind), below) && seen.stored)
       || (seen.stored && seen.emitted)
  }

  lemma EarlyWay(s: State, t: Tid, kind: CallbackKind, below: Stack, seen: Seen, env: Env, s': State)
    requires Inv(s) && IsData(kind) && OnItsWay(s, t, kind, below, seen) && s.threads[t].stack.Push?
    requires s.threads[t].stack.top.CbWant? || s.threads[t].stack.top.CbInside?
    requires Next(s, Move(t, env)) == Some(s')
    ensures OnItsWay(s', t, kind, below, SeenAfter(s, Move(t, env), t, seen))
  {
  }

  lemma LateWay(s: State, t: Tid, kind: CallbackKind, below: Stack, seen: Seen, env: Env, s': State)
    requires Inv(s) && IsData(kind) && OnItsWay(s, t, kind, below, seen) && s.threads[t].stack.Push?
    requires s.threads[t].stack.top.CbStoring? || s.threads[t].stack.top.CbWantEmit?
    requires Next(s, Move(t, env)) == Some(s')
    ensures OnItsWay(s', t, kind, below, SeenAfter(s, Move(t, env), t, seen))
  {
  }

  lemma WayStep(s: State, t: Tid, kind: CallbackKind, below: Stack, seen: Seen, a: Action)
    requires Inv(s) && IsData(kind) && OnItsWay(s, t, kind, below, seen)
    ensures OnItsWay(After(s, a), t, kind, below, SeenAfter(s, a, t, seen))
  {
    var s' := After(s, a);
    if Next(s, a).Some? {
      if a.Move? && a.t == t {
        if !(seen.stored && seen.emitted) {
          if s.threads[t].stack.top.CbWant? || s.threads[t].stack.top.CbInside? {
            EarlyWay(s, t, kind, below, seen, a.env, s');
          } else {
            LateWay(s, t, kind, below, seen, a.env, s');
          }
        } else {
          MoveWaits(s, t, a.env, s');
        }
      } else {
        OtherActionLeaves(s, a, s', t);
      }
    }
  }

  lemma {:induction false} WayOver(s: State, acts: seq<Action>, t: Tid, kind: CallbackKind, below: Stack, seen: Seen)
    requires Inv(s) && IsData(kind) && OnItsWay(s, t, kind, below, seen)
    ensures OnItsWay(Exec(s, acts), t, kind, below, SeenOver(s, acts, t, seen))
    decreases |acts|
  {
    if acts != [] {
      WayStep(s, t, kind, below, seen, acts[0]);
      if Next(s, acts[0]).Some? {
        NextKeeps(s, acts[0], After(s, acts[0]));
      }
      WayOver(After(s, acts[0]), acts[1..], t, kind, below, SeenAfter(s, acts[0], t, seen));
    }
  }

  /** In every interleaving, for locations and satellites alike: when a data callback asks for emit_mutex it has
      stored a sample of the clock taken after it got callback_mutex; when it is over it has held emit_mutex too. */
  lemma DataIsStoredAndEmitted(s: State, acts: seq<Action>, t: Tid, kind: CallbackKind)
    requires Reachable(s) && IsData(kind) && t in s.threads
    requires s.threads[t].stack.Push? && s.threads[t].stack.top == CbWant(kind)
    ensures var below := s.threads[t].stack.below;
            var s' := Exec(s, acts);
            var seen := SeenOver(s, acts, t, Seen(None, false, false));
            && t in s'.threads
            && (s'.threads[t].stack == Push(CbWantEmit(kind), below) ==> seen.stored)
            && (s'.threads[t].stack == below ==> seen.stored && seen.emitted)
  {
    ReachableHolds(s);
    WayOver(s, acts, t, kind, s.threads[t].stack.below, Seen(None, false, false));
  }
}
