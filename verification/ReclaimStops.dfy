/** What stop_positioning() does, over all runs. */
module ReclaimStops {
  import opened Prelude
  import opened Reclaim
  import opened ReclaimInvariant
  import opened ReclaimSteps
  import opened ReclaimOwner
  import opened ReclaimMoves
  import opened ReclaimTheorems
  import opened WatchdogTiming

  // --- The watchdog is disarmed ----------------------------------------------------------------

  /** The first step of a stop clears the stored time. */
  lemma StopClears(s: State, t: Tid, s': State)
    requires Reachable(s) && t in s.threads && s.threads[t].pc.SpClearing?
    requires Next(s, Move(t, Proceed)) == Some(s')
    ensures s'.lastGps == 0 && t in s'.threads && s'.threads[t].pc.SpTry?
  {
    ReachableHolds(s);
    assert Local(s, t, s.threads[t]);
  }

  /** No data callback and no start stores a sample of the clock. */
  predicate NeverStores(s: State, acts: seq<Action>)
    decreases |acts|
  {
    acts != [] ==> !(Stores(s, acts[0]) && Next(s, acts[0]).Some?) && NeverStores(After(s, acts[0]), acts[1..])
  }

  /** The watchdog in its loop, without a time that could be stale. */
  predicate Disarmed(s: State, w: Tid) {
    && s.lastGps == 0 && Watching(s, w)
    && (s.threads[w].pc.WdLoaded? ==> s.threads[w].pc.last == 0)
  }

  lemma DisarmedStep(s: State, a: Action, w: Tid)
    requires Inv(s) && Disarmed(s, w) && !(Stores(s, a) && Next(s, a).Some?)
    ensures Disarmed(After(s, a), w)
  {
    var r := Next(s, a);
    if a == Move(w, Proceed) {
      WatchdogMove(s, w);
    } else if r.Some? {
      ActionStores(s, a, r.value);
      assert a.Move? ==> a.t != w;
      OtherActionLeaves(s, a, r.value, w);
    }
  }

  lemma {:induction false} StaysDisarmed(s: State, acts: seq<Action>, w: Tid)
    requires Inv(s) && Disarmed(s, w) && NeverStores(s, acts)
    ensures Disarmed(Exec(s, acts), w)
    decreases |acts|
  {
    if acts != [] {
      DisarmedStep(s, acts[0], w);
      if Next(s, acts[0]).Some? {
        NextKeeps(s, acts[0], After(s, acts[0]));
      }
      StaysDisarmed(After(s, acts[0]), acts[1..], w);
    }
  }

  /** Once a stop has cleared the time, it stays 0 and the watchdog, asleep at that moment, never leaves its loop,
      however late it gets, until a data callback or a start stores a sample. */
  lemma StopDisarms(s: State, t: Tid, s': State, acts: seq<Action>, w: Tid)
    requires Reachable(s) && t in s.threads && s.threads[t].pc.SpClearing?
    requires Next(s, Move(t, Proceed)) == Some(s') && NeverStores(s', acts)
    requires w in s.threads && s.threads[w] == Thread(WdSleeping, Empty, s.threads[w].since)
    ensures Exec(s', acts).lastGps == 0 && Watching(Exec(s', acts), w)
  {
    StopClears(s, t, s');
    ReachableHolds(s);
    NextKeeps(s, Move(t, Proceed), s');
    OtherActionLeaves(s, Move(t, Proceed), s', w);
    StaysDisarmed(s', acts, w);
  }

  // --- The HAL is stopped ----------------------------------------------------------------------

  datatype StopFate = Pending | MetWriter | SawNull | Stopped

  predicate Steps(s: State, a: Action, t: Tid) {
    a == Move(t, Proceed) && t in s.threads && s.threads[t].stack.Empty?
  }

  /** What becomes of the stop that thread t has begun: its try-lock meets a writer, it sees a null handle,
      or it issues a stop on a live handle. */
  function StopFateOf(s: State, acts: seq<Action>, t: Tid): StopFate
    decreases |acts|
  {
    if acts == [] then Pending
    else if Steps(s, acts[0], t) && s.threads[t].pc.SpTry? && s.writer.Some? then MetWriter
    else if Steps(s, acts[0], t) && s.threads[t].pc.SpInside? && s.handle.None? then SawNull
    else if Steps(s, acts[0], t) && After(s, acts[0]).liveStops == s.liveStops + 1 then Stopped
    else StopFateOf(After(s, acts[0]), acts[1..], t)
  }

  /** The call has not come to its HAL stop, if there is to be one. */
  predicate StopAhead(s: State, t: Tid) {
    t in s.threads && (s.threads[t].pc.SpClearing? || s.threads[t].pc.SpTry? || s.threads[t].pc.SpInside?)
  }

  lemma OwnStopStep(s: State, t: Tid, env: Env)
    requires Inv(s) && StopAhead(s, t)
    ensures StopAhead(After(s, Move(t, env)), t) || StopFateOf(s, [Move(t, env)], t) != Pending
  {
    assert [Move(t, env)][1..] == [];
    assert Local(s, t, s.threads[t]);
    if s.threads[t].pc.SpInside? && s.handle.Some? {
      SharedMeansLive(s, t);
    }
  }

  lemma StopStepDecides(s: State, a: Action, t: Tid)
    requires Inv(s) && StopAhead(s, t)
    ensures StopAhead(After(s, a), t) || StopFateOf(s, [a], t) != Pending
  {
    if a.Move? && a.t == t {
      OwnStopStep(s, t, a.env);
    } else if Next(s, a).Some? {
      OtherActionLeaves(s, a, After(s, a), t);
    }
  }

  /** In every interleaving: a stop_positioning() that has returned issued a stop on a live handle, or its
      try-lock met a writer, or it saw a null handle; while none of that has happened it has not returned. */
  lemma {:induction false} StopIsIssued(s: State, acts: seq<Action>, t: Tid)
    requires Inv(s) && StopAhead(s, t)
    ensures StopFateOf(s, acts, t).Pending? ==> StopAhead(Exec(s, acts), t)
    decreases |acts|
  {
    if acts != [] {
      StopStepDecides(s, acts[0], t);
      assert [acts[0]][1..] == [];
      if Next(s, acts[0]).Some? {
        NextKeeps(s, acts[0], After(s, acts[0]));
      }
      if StopAhead(After(s, acts[0]), t) {
        StopIsIssued(After(s, acts[0]), acts[1..], t);
      }
    }
  }

  lemma NoStopIsLost(s: State, acts: seq<Action>, t: Tid)
    requires Reachable(s) && t in s.threads && s.threads[t].pc.SpClearing?
    requires var s' := Exec(s, acts); t in s'.threads && s'.threads[t].pc.SpReturned?
    ensures !StopFateOf(s, acts, t).Pending?
  {
    ReachableHolds(s);
    StopIsIssued(s, acts, t);
  }

  /** A stop is counted only by a stop_positioning() that finds a live handle installed. */
  lemma StopsAreOnLiveHandles(s: State, t: Tid, s': State)
    requires Reachable(s) && t in s.threads && s.threads[t].stack.Empty? && s.threads[t].pc.SpInside?
    requires Next(s, Move(t, Proceed)) == Some(s')
    ensures s'.liveStops == s.liveStops + (if s.handle.Some? then 1 else 0)
    ensures t in s'.threads && (s'.threads[t].pc.SpStopping? <==> s.handle.Some?)
    ensures s.handle.Some? ==> s.handle.value in s.live
  {
    ReachableHolds(s);
    assert Local(s, t, s.threads[t]);
    SharedMeansLive(s, t);
  }
}
