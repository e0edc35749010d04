/** What the bookkeeping of the protocol counts: HAL starts, HAL stops, stops that disarm and null attempts, each
    exactly at the step where it happens. */
module ReclaimBooks {
  import opened Prelude
  import opened Reclaim
  import opened ReclaimInvariant
  import opened ReclaimSteps
  import opened ReclaimOwner
  import opened ReclaimMoves
  import opened ReclaimTheorems

  /** The handle the thread is about to start. */
  function StartDue(th: Thread): Option<Handle> {
    if th.stack.Push? then None
    else match th.pc
      case StStarting(h) => Some(h)
      case Own(_, Starting(h)) => Some(h)
      case _ => None
  }

  function Live(s: State, h: Option<Handle>): nat { if LiveHandle(s, h) then 1 else 0 }

  predicate Same(s: State, s': State) {
    && s'.liveStarts == s.liveStarts && s'.liveStops == s.liveStops
    && s'.stops == s.stops && s'.nullAttempts == s.nullAttempts
  }

  /** A step of a thread's own code changes the counts as what it does demands. */
  predicate Counted(s: State, s': State, th: Thread) {
    && s'.liveStarts == s.liveStarts + Live(s, StartDue(th))
    && s'.liveStops == s.liveStops + (if th.pc.SpInside? then Live(s, s.handle) else 0)
    && s'.stops == s.stops + (if th.pc.SpClearing? then 1 else 0)
    && s'.nullAttempts == s.nullAttempts + (if th.pc.Own? && th.pc.step == Releasing(true) then 1 else 0)
  }

  lemma FrameBooks(s: State, t: Tid, th: Thread, env: Env, s': State)
    requires th.stack.Push? && FrameStep(s, t, th, env) == Some(s')
    ensures Same(s, s')
  {
  }

  lemma RegisterBooks(s: State, t: Tid, th: Thread, env: Env, s': State)
    requires th.stack.Empty? && th.pc.Own? && Registering(th.pc.step)
    requires RegisterStep(s, t, th, th.pc.role, env) == Some(s')
    ensures Counted(s, s', th)
  {
  }

  lemma DecideBooks(s: State, t: Tid, th: Thread, s': State)
    requires th.stack.Empty? && th.pc.Own? && Decide(th.pc.step) && RestartStep(s, t, th, th.pc.role) == Some(s')
    ensures Counted(s, s', th)
  {
  }

  lemma RestartBooks(s: State, t: Tid, th: Thread, s': State)
    requires th.stack.Empty? && th.pc.Own? && Restart(th.pc.step) && RestartStep(s, t, th, th.pc.role) == Some(s')
    ensures Counted(s, s', th)
    ensures th.pc.step.Starting? ==> t in s'.threads && s'.threads[t].pc.Own? && s'.threads[t].pc.step.InStart?
  {
  }

  lemma StartBooks(s: State, t: Tid, th: Thread, s': State)
    requires th.stack.Empty? && StartStep(s, t, th) == Some(s') && !th.pc.StSpawning?
    ensures Counted(s, s', th)
    ensures th.pc.StStarting? ==> t in s'.threads && s'.threads[t].pc.StInStart?
  {
  }

  lemma SpawnBooks(s: State, t: Tid, th: Thread, s': State)
    requires th.stack.Empty? && th.pc.StSpawning? && StartStep(s, t, th) == Some(s')
    ensures Counted(s, s', th)
  {
  }

  lemma StopBooks(s: State, t: Tid, th: Thread, s': State)
    requires th.stack.Empty? && StopStep(s, t, th) == Some(s')
    ensures Counted(s, s', th)
    ensures th.pc.SpInside? && s.handle.Some? ==> t in s'.threads && s'.threads[t].pc.SpStopping?
  {
  }

  lemma WatchdogBooks(s: State, t: Tid, th: Thread, s': State)
    requires th.stack.Empty? && WatchdogStep(s, t, th) == Some(s')
    ensures Counted(s, s', th)
  {
  }

  /** The thread is inside the HAL call that its step begins. */
  predicate InStart(pc: Pc) { pc.StInStart? || (pc.Own? && pc.step.InStart?) }

  /** In every step of every thread: a start is counted exactly when a thread enters u_hardware_gps_start with a live
      handle, a HAL stop when it enters u_hardware_gps_stop, and nothing else is ever counted. */
  lemma BooksAreRight(s: State, a: Action, s': State)
    requires Next(s, a) == Some(s') && (a.Move? ==> a.t < s.nextTid)
    ensures if a.Move? && s.threads[a.t].stack.Empty? && !a.env.CallBack? then Counted(s, s', s.threads[a.t])
            else Same(s, s')
    ensures a.Move? && !a.env.CallBack? && StartDue(s.threads[a.t]).Some? ==>
              a.t in s'.threads && InStart(s'.threads[a.t].pc)
    ensures a.Move? && !a.env.CallBack? && s.threads[a.t].stack.Empty? && s.threads[a.t].pc.SpInside?
            && s.handle.Some? ==>
              a.t in s'.threads && s'.threads[a.t].pc.SpStopping?
  {
    if a.Move? {
      var t, th := a.t, s.threads[a.t];
      if th.stack.Push? {
        FrameBooks(s, t, th, a.env, s');
      } else if a.env.CallBack? {
      } else if th.pc.Own? {
        if Registering(th.pc.step) {
          RegisterBooks(s, t, th, a.env, s');
        } else if Decide(th.pc.step) {
          DecideBooks(s, t, th, s');
        } else {
          RestartBooks(s, t, th, s');
        }
      } else if th.pc.StSpawning? {
        SpawnBooks(s, t, th, s');
      } else if StartStep(s, t, th).Some? {
        StartBooks(s, t, th, s');
      } else if StopStep(s, t, th).Some? {
        StopBooks(s, t, th, s');
      } else {
        WatchdogBooks(s, t, th, s');
      }
    }
  }

  /** A callback without data only updates a field: it touches neither the stored time nor emit_mutex, and
      calls nothing. */
  lemma PlainOnlyUpdates(s: State, t: Tid, env: Env, s': State)
    requires t in s.threads && s.threads[t].stack.Push? && Next(s, Move(t, env)) == Some(s')
    requires s.threads[t].stack.top == CbWant(Plain) || s.threads[t].stack.top == CbInside(Plain)
    ensures s'.lastGps == s.lastGps && s'.emitter == s.emitter && t in s'.threads
    ensures var below := s.threads[t].stack.below;
            s'.threads[t].stack == Push(if s.threads[t].stack.top.CbWant? then CbInside(Plain) else CbLeaving, below)
  {
  }

  // --- The watchdog's restart ------------------------------------------------------------------

  /** The watchdog has read a handle to restart. */
  predicate ToRestart(pc: Pc) {
    pc.Own? && pc.role == Watchdog && ((pc.step.Got? && pc.step.h.Some?) || pc.step.Dispatching?)
  }

  predicate AtStart(pc: Pc) { pc.Own? && pc.step.Starting? }

  /** Thread t returns from the call that gives the driver the current modes. */
  predicate Pushes(s: State, a: Action, t: Tid) {
    && a == Move(t, Proceed) && t in s.threads && s.threads[t].stack.Empty?
    && s.threads[t].pc.Own? && s.threads[t].pc.step.Dispatching?
  }

  predicate PushesIn(s: State, acts: seq<Action>, t: Tid)
    decreases |acts|
  {
    acts != [] && (Pushes(s, acts[0], t) || PushesIn(After(s, acts[0]), acts[1..], t))
  }

  lemma RestartStepPushes(s: State, t: Tid, env: Env)
    requires Inv(s) && t in s.threads && ToRestart(s.threads[t].pc)
    ensures var s' := After(s, Move(t, env));
            t in s'.threads && (ToRestart(s'.threads[t].pc) || Pushes(s, Move(t, env), t))
  {
    assert Local(s, t, s.threads[t]);
  }

  /** In every interleaving: between reading the new handle and starting it, the watchdog gives the driver the modes
      once more, as they are by then. */
  lemma {:induction false} RestartsPushModes(s: State, acts: seq<Action>, t: Tid)
    requires Inv(s) && t in s.threads && ToRestart(s.threads[t].pc)
    ensures var s' := Exec(s, acts);
            PushesIn(s, acts, t) || (t in s'.threads && ToRestart(s'.threads[t].pc) && !AtStart(s'.threads[t].pc))
    decreases |acts|
  {
    if acts != [] {
      var s' := After(s, acts[0]);
      if Next(s, acts[0]).Some? {
        NextKeeps(s, acts[0], s');
        if acts[0].Move? && acts[0].t == t {
          RestartStepPushes(s, t, acts[0].env);
        } else {
          OtherActionLeaves(s, acts[0], s', t);
        }
      }
      if !Pushes(s, acts[0], t) {
        RestartsPushModes(s', acts[1..], t);
      }
    }
  }
}
