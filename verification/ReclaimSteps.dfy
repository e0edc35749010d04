/** Every action of the reclaim protocol keeps the invariant. */
module ReclaimSteps {
  import opened Prelude
  import opened Reclaim
  import opened ReclaimInvariant

  /** The situation in which thread t takes a step. */
  predicate At(s: State, t: Tid, th: Thread) {
    Brief(s) && t in s.threads && th == s.threads[t] && Local(s, t, th)
  }

  predicate StopLocking(pc: Pc) { pc.SpTry? || pc.SpUnlocking? }

  lemma StopLocksLocal(s: State, t: Tid, th: Thread, s': State)
    requires At(s, t, th) && th.stack.Empty? && StopLocking(th.pc)
    requires StopStep(s, t, th) == Some(s')
    ensures Quiet(s, s', t) && Holds(s', t, s'.threads[t])
  {
  }

  lemma StopWorksLocal(s: State, t: Tid, th: Thread, s': State)
    requires At(s, t, th) && th.stack.Empty? && !StopLocking(th.pc)
    requires StopStep(s, t, th) == Some(s')
    ensures Quiet(s, s', t) && Holds(s', t, s'.threads[t])
  {
  }

  lemma StopLocksPcOk(s: State, t: Tid, th: Thread, s': State)
    requires At(s, t, th) && th.stack.Empty? && StopLocking(th.pc)
    requires StopStep(s, t, th) == Some(s')
    ensures t in s'.threads && PcOk(s', s'.threads[t])
  {
  }

  lemma StopWorksPcOk(s: State, t: Tid, th: Thread, s': State)
    requires At(s, t, th) && th.stack.Empty? && !StopLocking(th.pc)
    requires StopStep(s, t, th) == Some(s')
    ensures t in s'.threads && PcOk(s', s'.threads[t])
  {
  }

  lemma StopKeeps(s: State, t: Tid, th: Thread, s': State)
    requires Inv(s) && t in s.threads && th == s.threads[t]
    requires th.stack.Empty?
    requires StopStep(s, t, th) == Some(s')
    ensures Inv(s') && Onward(s, s')
  {
    if StopLocking(th.pc) {
      StopLocksLocal(s, t, th, s');
      StopLocksPcOk(s, t, th, s');
    } else {
      StopWorksLocal(s, t, th, s');
      StopWorksPcOk(s, t, th, s');
    }
    QuietKeeps(s, s', t);
  }

  lemma WatchdogLocksLocal(s: State, t: Tid, th: Thread, s': State)
    requires At(s, t, th) && th.stack.Empty? && (th.pc.WdWant? || th.pc.WdInside?)
    requires WatchdogStep(s, t, th) == Some(s')
    ensures Quiet(s, s', t) && Holds(s', t, s'.threads[t])
  {
  }

  lemma WatchdogLocksPcOk(s: State, t: Tid, th: Thread, s': State)
    requires At(s, t, th) && th.stack.Empty? && (th.pc.WdWant? || th.pc.WdInside?)
    requires WatchdogStep(s, t, th) == Some(s')
    ensures t in s'.threads && PcOk(s', s'.threads[t])
  {
  }

  lemma WatchdogWorksLocal(s: State, t: Tid, th: Thread, s': State)
    requires At(s, t, th) && th.stack.Empty? && (th.pc.WdSleeping? || th.pc.WdLoaded?)
    requires WatchdogStep(s, t, th) == Some(s')
    ensures Quiet(s, s', t) && Holds(s', t, s'.threads[t])
  {
  }

  lemma WatchdogWorksPcOk(s: State, t: Tid, th: Thread, s': State)
    requires At(s, t, th) && th.stack.Empty? && (th.pc.WdSleeping? || th.pc.WdLoaded?)
    requires WatchdogStep(s, t, th) == Some(s')
    ensures t in s'.threads && PcOk(s', s'.threads[t])
  {
  }

  lemma WatchdogKeeps(s: State, t: Tid, th: Thread, s': State)
    requires Inv(s) && t in s.threads && th == s.threads[t]
    requires th.stack.Empty? && !th.pc.WdExchange?
    requires WatchdogStep(s, t, th) == Some(s')
    ensures Inv(s') && Onward(s, s')
  {
    if th.pc.WdWant? || th.pc.WdInside? {
      WatchdogLocksLocal(s, t, th, s');
      WatchdogLocksPcOk(s, t, th, s');
    } else {
      WatchdogWorksLocal(s, t, th, s');
      WatchdogWorksPcOk(s, t, th, s');
    }
    QuietKeeps(s, s', t);
  }

  /** Callback steps that take or release callback_mutex. */
  predicate Locking(f: Frame) { f.CbWant? || f.CbLeaving? }

  lemma FrameLocksLocal(s: State, t: Tid, th: Thread, env: Env, s': State)
    requires At(s, t, th) && th.stack.Push? && Locking(th.stack.top)
    requires FrameStep(s, t, th, env) == Some(s')
    ensures Quiet(s, s', t) && Holds(s', t, s'.threads[t])
  {
  }

  lemma FrameWorksQuiet(s: State, t: Tid, th: Thread, env: Env, s': State)
    requires At(s, t, th) && th.stack.Push? && !Locking(th.stack.top)
    requires FrameStep(s, t, th, env) == Some(s')
    ensures Quiet(s, s', t)
  {
  }

  lemma FrameWorksHolds(s: State, t: Tid, th: Thread, env: Env, s': State)
    requires At(s, t, th) && th.stack.Push? && !Locking(th.stack.top)
    requires FrameStep(s, t, th, env) == Some(s')
    ensures t in s'.threads && Holds(s', t, s'.threads[t])
  {
  }

  lemma FrameSame(s: State, t: Tid, th: Thread, env: Env, s': State)
    requires t in s.threads && th == s.threads[t] && th.stack.Push?
    requires FrameStep(s, t, th, env) == Some(s')
    ensures t in s'.threads && s'.threads[t].pc == th.pc && s'.threads[t].since == th.since
  {
  }

  lemma FrameKeeps(s: State, t: Tid, th: Thread, env: Env, s': State)
    requires Inv(s) && t in s.threads && th == s.threads[t]
    requires th.stack.Push?
    requires FrameStep(s, t, th, env) == Some(s')
    ensures Inv(s') && Onward(s, s')
  {
    if Locking(th.stack.top) {
      FrameLocksLocal(s, t, th, env, s');
    } else {
      FrameWorksQuiet(s, t, th, env, s');
      FrameWorksHolds(s, t, th, env, s');
    }
    FrameSame(s, t, th, env, s');
    SamePcOk(s, s', t);
    QuietKeeps(s, s', t);
  }

  lemma CallBackLocal(s: State, t: Tid, th: Thread, env: Env, s': State)
    requires At(s, t, th) && th.stack.Empty? && env.CallBack?
    requires PcStep(s, t, th, env) == Some(s')
    ensures Quiet(s, s', t) && Holds(s', t, s'.threads[t])
  {
  }

  lemma CallBackKeeps(s: State, t: Tid, th: Thread, env: Env, s': State)
    requires Inv(s) && t in s.threads && th == s.threads[t]
    requires th.stack.Empty? && env.CallBack?
    requires PcStep(s, t, th, env) == Some(s')
    ensures Inv(s') && Onward(s, s')
  {
    CallBackLocal(s, t, th, env, s');
    SamePcOk(s, s', t);
    QuietKeeps(s, s', t);
  }

  /** Steps of start_positioning() inside the shared section, and those of the fast path after it. */
  predicate InSection(pc: Pc) { pc.StTry? || pc.StInside? || pc.StDispatching? || pc.StUnlocking? }

  predicate AfterSection(pc: Pc) { pc.StSampling? || pc.StStoring? || pc.StStarting? || pc.StInStart? }

  lemma EntryQuiet(s: State, t: Tid, th: Thread, s': State)
    requires At(s, t, th) && th.stack.Empty? && (th.pc.StTry? || th.pc.StInside?)
    requires StartStep(s, t, th) == Some(s')
    ensures Quiet(s, s', t)
  {
  }

  lemma ConfiguringQuiet(s: State, t: Tid, th: Thread, s': State)
    requires At(s, t, th) && th.stack.Empty? && (th.pc.StDispatching? || th.pc.StUnlocking?)
    requires StartStep(s, t, th) == Some(s')
    ensures Quiet(s, s', t)
  {
  }

  lemma SectionQuiet(s: State, t: Tid, th: Thread, s': State)
    requires At(s, t, th) && th.stack.Empty? && InSection(th.pc)
    requires StartStep(s, t, th) == Some(s')
    ensures Quiet(s, s', t)
  {
    if th.pc.StTry? || th.pc.StInside? {
      EntryQuiet(s, t, th, s');
    } else {
      ConfiguringQuiet(s, t, th, s');
    }
  }

  lemma EntryHolds(s: State, t: Tid, th: Thread, s': State)
    requires At(s, t, th) && th.stack.Empty? && (th.pc.StTry? || th.pc.StInside?)
    requires StartStep(s, t, th) == Some(s')
    ensures t in s'.threads && Holds(s', t, s'.threads[t])
  {
  }

  lemma ConfiguringHolds(s: State, t: Tid, th: Thread, s': State)
    requires At(s, t, th) && th.stack.Empty? && (th.pc.StDispatching? || th.pc.StUnlocking?)
    requires StartStep(s, t, th) == Some(s')
    ensures t in s'.threads && Holds(s', t, s'.threads[t])
  {
  }

  lemma FastLocal(s: State, t: Tid, th: Thread, s': State)
    requires At(s, t, th) && th.stack.Empty? && AfterSection(th.pc)
    requires StartStep(s, t, th) == Some(s')
    ensures Quiet(s, s', t) && Holds(s', t, s'.threads[t])
  {
  }

  /** The try-lock of start_positioning() fails only while an attempt has its outcome ahead. */
  lemma WriterPending(s: State)
    requires Inv(s) && s.booted && s.writer.Some?
    ensures OwnerPending(s)
  {
    assert Local(s, s.writer.value, s.threads[s.writer.value]);
  }

  /** A null handle seen under the shared lock belongs to nobody or to an undecided attempt. */
  lemma NullPending(s: State)
    requires Inv(s) && s.booted && s.handle.None?
    ensures s.owner.None? || OwnerPending(s)
  {
    if s.owner.Some? {
      assert Local(s, s.owner.value, s.threads[s.owner.value]);
    }
  }

  lemma PendingStays(s: State, s': State, t: Tid)
    requires Inv(s) && Quiet(s, s', t) && OwnerPending(s)
    ensures OwnerPending(s')
  {
    assert s'.threads[s'.owner.value].pc == s.threads[s.owner.value].pc;
  }

  /** Whoever holds callback_mutex shared sees a null or a live handle. */
  lemma SharedMeansLive(s: State, t: Tid)
    requires Inv(s) && t in s.readers
    ensures s.handle.Some? ==> s.handle.value in s.live
  {
    assert s.writer.None?;
    if s.owner.Some? {
      assert Local(s, s.owner.value, s.threads[s.owner.value]);
    }
  }

  lemma SectionPcCases(s: State, t: Tid, th: Thread, s': State)
    requires At(s, t, th) && th.stack.Empty? && InSection(th.pc)
    requires Quiet(s, s', t) && StartStep(s, t, th) == Some(s')
    requires s.writer.Some? ==> OwnerPending(s')
    requires s.handle.None? ==> s'.owner.None? || OwnerPending(s')
    requires th.pc.StUnlocking? ==> th.pc.h in s.live
    ensures t in s'.threads && PcOk(s', s'.threads[t])
  {
  }

  lemma SectionPcOk(s: State, t: Tid, th: Thread, s': State)
    requires Inv(s) && t in s.threads && th == s.threads[t]
    requires th.stack.Empty? && InSection(th.pc)
    requires StartStep(s, t, th) == Some(s')
    requires Quiet(s, s', t)
    ensures t in s'.threads && PcOk(s', s'.threads[t])
  {
    assert Local(s, t, th);
    if s.writer.Some? {
      WriterPending(s);
    }
    if s.handle.None? {
      NullPending(s);
    }
    if OwnerPending(s) {
      PendingStays(s, s', t);
    }
    if th.pc.StUnlocking? {
      SharedMeansLive(s, t);
    }
    SectionPcCases(s, t, th, s');
  }

  lemma FastPcOk(s: State, t: Tid, th: Thread, s': State)
    requires Inv(s) && t in s.threads && th == s.threads[t]
    requires th.stack.Empty? && AfterSection(th.pc)
    requires StartStep(s, t, th) == Some(s')
    requires Quiet(s, s', t)
    ensures t in s'.threads && PcOk(s', s'.threads[t])
  {
    assert Local(s, t, th);
    QuietRespects(s, s', t);
    ServedStays(s, s', t, th.since);
  }

  lemma StartKeeps(s: State, t: Tid, th: Thread, s': State)
    requires Inv(s) && t in s.threads && th == s.threads[t]
    requires th.stack.Empty? && (InSection(th.pc) || AfterSection(th.pc))
    requires StartStep(s, t, th) == Some(s')
    ensures Inv(s') && Onward(s, s')
  {
    if InSection(th.pc) {
      SectionQuiet(s, t, th, s');
      if th.pc.StTry? || th.pc.StInside? {
        EntryHolds(s, t, th, s');
      } else {
        ConfiguringHolds(s, t, th, s');
      }
      SectionPcOk(s, t, th, s');
    } else {
      FastLocal(s, t, th, s');
      FastPcOk(s, t, th, s');
    }
    QuietKeeps(s, s', t);
  }
}
