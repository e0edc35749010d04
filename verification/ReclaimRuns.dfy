/** Runs that reach the states in which the protocol's promises end. */
module ReclaimRuns {
  import opened Prelude
  import opened Reclaim
  import opened ReclaimInvariant
  import opened ReclaimTheorems
  import opened ReclaimProgress
  import opened WatchdogTiming

  lemma {:induction false} ExecAppend(s: State, acts: seq<Action>, a: Action)
    ensures Exec(s, acts + [a]) == After(Exec(s, acts), a)
    decreases |acts|
  {
    if acts == [] {
      assert [] + [a] == [a] && [a][1..] == [];
      assert Exec(After(s, a), []) == After(s, a);
    } else {
      assert (acts + [a])[1..] == acts[1..] + [a];
      ExecAppend(After(s, acts[0]), acts[1..], a);
    }
  }

  lemma Then(s: State, a: Action, s': State)
    requires Reachable(s) && Next(s, a) == Some(s')
    ensures Reachable(s')
  {
    var clock: nat, acts :| 0 < clock < UINT64 && s == Exec(Init(clock), acts);
    ExecAppend(Init(clock), acts, a);
  }

  // --- The pieces of a run -------------------------------------------------------------------

  const NOW: Since := Since(0, 0, 0)

  function Booting(s: State, step: OwnStep): State { SetThread(s, 0, Thread(Own(Boot, step), Empty, NOW)) }

  /** The constructor is through and the watchdog asleep; handle 0 is installed. */
  const BOOTED: State :=
    State(Some(0), None, multiset{}, None, false, 0, 1, true, None, {0}, 1, 0, Some(0), {0}, 0, 0, 0, 0, 1,
          map[0 := Thread(WdSleeping, Empty, NOW)])

  /** The constructor is inside u_hardware_gps_new. */
  const CREATING: State := Booting(Init(1), P2Creating)

  lemma CreatingReachable()
    ensures Reachable(CREATING)
  {
    var s0 := Init(1);
    assert s0 == Exec(Init(1), []);
    var s1 := Booting(s0, P1Inside).(writer := Some(0));
    Then(s0, Move(0, Proceed), s1);
    var s2 := Booting(s1, P1Clearing);
    Then(s1, Move(0, Proceed), s2);
    var s3 := Booting(s2, P2Creating).(writer := None);
    Then(s2, Move(0, Proceed), s3);
    assert s3.threads == CREATING.threads;
  }

  lemma BootCreates() returns (s: State)
    ensures Reachable(s) && s == Booting(CREATING, P3Want(Some(0))).(live := {0}, created := 1, latest := Some(0))
  {
    CreatingReachable();
    s := Booting(CREATING, P3Want(Some(0))).(live := {0}, created := 1, latest := Some(0));
    assert s.live == CREATING.live + {0};
    Then(CREATING, Move(0, Proceed), s);
  }

  lemma BootInstalls() returns (s: State)
    ensures Reachable(s)
    ensures s == Booting(CREATING, P4Checking).(live := {0}, created := 1, latest := Some(0), handle := Some(0))
  {
    var s4 := BootCreates();
    var s5 := Booting(s4, P3Inside(Some(0))).(writer := Some(0));
    Then(s4, Move(0, Proceed), s5);
    s := Booting(s5, P4Checking).(handle := Some(0), writer := None);
    Then(s5, Move(0, Proceed), s);
    assert s.threads == Booting(CREATING, P4Checking).threads;
  }

  lemma BootReachable()
    ensures Reachable(BOOTED)
  {
    var s6 := BootInstalls();
    var s7 := Booting(s6, P4Dispatching);
    Then(s6, Move(0, Proceed), s7);
    var s8 := Booting(s7, Registered).(configured := {0});
    assert s8.configured == Configured(s7);
    Then(s7, Move(0, Proceed), s8);
    assert BOOTED.threads == s8.threads[0 := Thread(WdSleeping, Empty, NOW)];
    Then(s8, Move(0, Proceed), BOOTED);
  }

  /** A HAL thread or a client arrives. */
  lemma Arrives(s: State, entry: Entry) returns (s': State)
    requires Reachable(s) && s.booted
    ensures Reachable(s')
    ensures s' == s.(threads := s.threads[s.nextTid := Arrival(s, entry)], nextTid := s.nextTid + 1)
  {
    s' := s.(threads := s.threads[s.nextTid := Arrival(s, entry)], nextTid := s.nextTid + 1);
    Then(s, Begin(entry), s');
  }

  predicate MayCallBack(th: Thread) {
    if th.stack.Push? then FrameInHal(th.stack.top) else InHal(th.pc)
  }

  function WithStack(s: State, t: Tid, k: Stack): State
    requires t in s.threads
  {
    s.(threads := s.threads[t := s.threads[t].(stack := k)])
  }

  /** A location callback on thread t, up to its request for emit_mutex. */
  lemma LocationArrives(s: State, t: Tid) returns (s': State)
    requires Reachable(s) && t in s.threads && MayCallBack(s.threads[t]) && s.writer.None?
    ensures Reachable(s')
    ensures s' == WithStack(s, t, Push(CbWantEmit(Location), s.threads[t].stack)).(
                    readers := s.readers + multiset{t}, lastGps := s.clock)
  {
    var below := s.threads[t].stack;
    var s1 := WithStack(s, t, Push(CbWant(Location), below));
    Then(s, Move(t, CallBack(Location)), s1);
    var s2 := WithStack(s1, t, Push(CbInside(Location), below)).(readers := s.readers + multiset{t});
    Then(s1, Move(t, Proceed), s2);
    var s3 := WithStack(s2, t, Push(CbStoring(Location, s.clock), below));
    Then(s2, Move(t, Proceed), s3);
    s' := WithStack(s3, t, Push(CbWantEmit(Location), below)).(lastGps := s.clock);
    Then(s3, Move(t, Proceed), s');
    assert s'.threads == WithStack(s, t, Push(CbWantEmit(Location), below)).threads;
  }

  lemma EmissionBegins(s: State, t: Tid) returns (s': State)
    requires Reachable(s) && t in s.threads && s.emitter.None?
    requires s.threads[t].stack.Push? && s.threads[t].stack.top == CbWantEmit(Location)
    ensures Reachable(s')
    ensures s' == WithStack(s, t, Push(CbEmitting(Location), s.threads[t].stack.below)).(emitter := Some(t))
  {
    s' := WithStack(s, t, Push(CbEmitting(Location), s.threads[t].stack.below)).(emitter := Some(t));
    Then(s, Move(t, Proceed), s');
  }

  // --- A deadlock of one thread --------------------------------------------------------------

  /** The HAL reports a location from inside the injection made by an emission: that thread then waits
      for the emit_mutex it holds, and no actions ever bring the service to rest again. */
  lemma NestedCallbackDeadlocks() returns (s: State, t: Tid)
    ensures Reachable(s) && t in s.threads && WantsEmit(s.threads[t]) && s.emitter == Some(t)
    ensures forall acts :: IsNested(Exec(s, acts), t) && !Calm(Exec(s, acts))
  {
    BootReachable();
    t := 1;
    var s1 := Arrives(BOOTED, HalCallback);
    var s2 := LocationArrives(s1, t);
    var s3 := EmissionBegins(s2, t);
    s := LocationArrives(s3, t);
    ReachableHolds(s);
    forall acts
      ensures IsNested(Exec(s, acts), t) && !Calm(Exec(s, acts))
    {
      NestedForEver(s, t, acts);
    }
  }

  // --- Injections into nothing -----------------------------------------------------------------

  /** A callback that wants to inject, made synchronously by u_hardware_gps_new, passes a null handle. */
  lemma CallbackInjectsNull() returns (s: State)
    ensures Reachable(s) && 0 in s.threads && Injects(s.threads[0]) && s.threads[0].stack.top.CbCalling?
    ensures HandlePassed(s, s.threads[0]).None?
  {
    CreatingReachable();
    var s1 := WithStack(CREATING, 0, Push(CbWant(Inject), Empty));
    Then(CREATING, Move(0, CallBack(Inject)), s1);
    var s2 := WithStack(s1, 0, Push(CbInside(Inject), Empty)).(readers := s1.readers + multiset{0});
    Then(s1, Move(0, Proceed), s2);
    s := WithStack(s2, 0, Push(CbCalling, Empty));
    Then(s2, Move(0, Proceed), s);
  }

  /** And so does the engine, for a location reported by u_hardware_gps_new. */
  lemma EmissionInjectsNull() returns (s: State)
    ensures Reachable(s) && 0 in s.threads && Injects(s.threads[0]) && s.threads[0].stack.top == CbEmitting(Location)
    ensures HandlePassed(s, s.threads[0]).None?
  {
    CreatingReachable();
    var s1 := LocationArrives(CREATING, 0);
    s := EmissionBegins(s1, 0);
  }

  // --- A client call that waits --------------------------------------------------------------

  /** start_positioning() under way to its first HAL call. */
  lemma StartDispatches(s: State, t: Tid) returns (s': State)
    requires Reachable(s) && t in s.threads && s.threads[t].pc.StTry? && s.threads[t].stack.Empty?
    requires s.writer.None? && s.handle.Some?
    ensures Reachable(s')
    ensures s' == SetThread(s, t, Goto(s.threads[t], StDispatching(s.handle.value))).(readers := s.readers + multiset{t})
  {
    var s1 := SetThread(s, t, Goto(s.threads[t], StInside)).(readers := s.readers + multiset{t});
    Then(s, Move(t, Proceed), s1);
    s' := SetThread(s1, t, Goto(s.threads[t], StDispatching(s.handle.value)));
    Then(s1, Move(t, Proceed), s');
  }

  /** A client waits inside start_positioning() for another thread's emission. */
  lemma ClientWaitsForEmission() returns (s: State, t: Tid)
    ensures Reachable(s) && t in s.threads && s.threads[t].pc.StDispatching? && !CanMove(s, t)
    ensures WantsEmit(s.threads[t]) && s.emitter.Some? && s.emitter != Some(t)
  {
    BootReachable();
    var s1 := Arrives(BOOTED, HalCallback);
    var s2 := LocationArrives(s1, 1);
    var s3 := EmissionBegins(s2, 1);
    t := 2;
    var s4 := Arrives(s3, StartCall);
    var s5 := StartDispatches(s4, t);
    s := LocationArrives(s5, t);
  }

  /** The fast path configures the handle and lets go of the lock. */
  lemma FastPathUnlocks(s: State, t: Tid, h: Handle) returns (s': State)
    requires Reachable(s) && t in s.threads && s.threads[t].stack.Empty?
    requires s.threads[t].pc == StDispatching(h) && s.handle == Some(h)
    requires s.threads[t].since.nulls == s.nullAttempts
    ensures Reachable(s')
    ensures s' == SetThread(s, t, Goto(s.threads[t], StSampling(h))).(
                    readers := s.readers - multiset{t}, configured := s.configured + {h})
  {
    var th := s.threads[t];
    var s1 := SetThread(s, t, Goto(th, StUnlocking(h))).(configured := s.configured + {h});
    Then(s, Move(t, Proceed), s1);
    assert HandOver(s1, Goto(th, StUnlocking(h))) == Goto(th, StUnlocking(h));
    s' := SetThread(s1, t, Goto(th, StSampling(h))).(readers := s.readers - multiset{t});
    Then(s1, Move(t, Proceed), s');
  }

  /** The rest of the fast path, up to the inside of u_hardware_gps_start(). */
  lemma FastPathStarts(s: State, t: Tid, h: Handle) returns (s': State)
    requires Reachable(s) && t in s.threads && s.threads[t].stack.Empty?
    requires s.threads[t].pc == StDispatching(h) && s.handle == Some(h) && h in s.live
    requires s.threads[t].since.nulls == s.nullAttempts
    ensures Reachable(s')
    ensures s' == SetThread(s, t, Goto(s.threads[t], StInStart)).(
                    readers := s.readers - multiset{t}, configured := s.configured + {h},
                    lastGps := s.clock, liveStarts := s.liveStarts + 1)
  {
    var th := s.threads[t];
    var s2 := FastPathUnlocks(s, t, h);
    var s3 := SetThread(s2, t, Goto(th, StStoring(h, s.clock)));
    Then(s2, Move(t, Proceed), s3);
    var s4 := SetThread(s3, t, Goto(th, StStarting(h))).(lastGps := s.clock);
    Then(s3, Move(t, Proceed), s4);
    s' := SetThread(s4, t, Goto(th, StInStart)).(liveStarts := s.liveStarts + 1);
    Then(s4, Move(t, Proceed), s');
  }

  lemma SilenceNoticed(s: State, w: Tid) returns (s': State)
    requires Reachable(s) && Undisturbed(s, w, WdSleeping) && Stale(s.lastGps, s.clock)
    ensures Reachable(s') && s' == SetThread(s, w, Goto(s.threads[w], WdWant))
  {
    var s1 := SetThread(s, w, Goto(s.threads[w], WdLoaded(s.lastGps)));
    Then(s, Move(w, Proceed), s1);
    s' := SetThread(s1, w, Goto(s.threads[w], WdWant));
    Then(s1, Move(w, Proceed), s');
  }

  lemma HandleSeen(s: State, w: Tid) returns (s': State)
    requires Reachable(s) && Undisturbed(s, w, WdWant) && s.handle.Some?
    ensures Reachable(s') && s' == SetThread(s, w, Goto(s.threads[w], WdExchange))
  {
    var s1 := SetThread(s, w, Goto(s.threads[w], WdInside)).(readers := s.readers + multiset{w});
    Then(s, Move(w, Proceed), s1);
    s' := SetThread(s1, w, Goto(s.threads[w], WdExchange)).(readers := s.readers);
    assert s1.readers - multiset{w} == s.readers;
    Then(s1, Move(w, Proceed), s');
  }

  /** After silence, the watchdog wins the flag. */
  lemma ReclaimBegins(s: State, w: Tid) returns (s': State)
    requires Reachable(s) && Undisturbed(s, w, WdSleeping)
    requires Stale(s.lastGps, s.clock) && s.handle.Some? && !s.active
    ensures Reachable(s')
    ensures s' == SetThread(s, w, Thread(Own(Watchdog, P1Want), Empty, Since(0, 0, s.stops))).(
                    active := true, owner := Some(w))
  {
    var s1 := SilenceNoticed(s, w);
    var s2 := HandleSeen(s1, w);
    s' := SetThread(s2, w, Thread(Own(Watchdog, P1Want), Empty, Since(0, 0, s.stops))).(
            active := true, owner := Some(w));
    Then(s2, Move(w, Proceed), s');
  }

  /** A client's start on the booted service, 10 s of silence, and the watchdog about to reclaim. */
  lemma SilenceAfterStart() returns (s: State)
    ensures Reachable(s)
    ensures s.threads == BOOTED.threads[1 := Thread(StInStart, Empty, NOW)]
                                       [0 := Thread(Own(Watchdog, P1Want), Empty, NOW)]
    ensures s == BOOTED.(threads := s.threads, nextTid := 2, clock := 10002, lastGps := 1, liveStarts := 1,
                         active := true, owner := Some(0))
  {
    BootReachable();
    var s1 := Arrives(BOOTED, StartCall);
    var s2 := StartDispatches(s1, 1);
    var s3 := FastPathStarts(s2, 1, 0);
    assert s3.readers == multiset{} && s3.configured == {0};
    var s4 := s3.(clock := 10002);
    Then(s3, Advance(10001), s4);
    s := ReclaimBegins(s4, 0);
    assert s4.threads[1] == Thread(StInStart, Empty, NOW);
    assert s.threads == BOOTED.threads[1 := Thread(StInStart, Empty, NOW)]
                                      [0 := Thread(Own(Watchdog, P1Want), Empty, NOW)];
  }

  /** A client waits inside u_hardware_gps_start() for a reclaim: its thread runs a callback that asks
      for callback_mutex. */
  lemma ClientWaitsForReclaim() returns (s: State, t: Tid)
    ensures Reachable(s) && t in s.threads && s.threads[t].pc.StInStart? && !CanMove(s, t)
    ensures s.threads[t].stack == Push(CbWant(Plain), Empty) && s.writer.Some? && s.writer != Some(t)
  {
    t := 1;
    var s1 := SilenceAfterStart();
    var s2 := SetThread(s1, 0, Thread(Own(Watchdog, P1Inside), Empty, NOW)).(writer := Some(0));
    Then(s1, Move(0, Proceed), s2);
    s := WithStack(s2, t, Push(CbWant(Plain), Empty));
    Then(s2, Move(t, CallBack(Plain)), s);
  }

  // --- Silence that is not reclaimed ---------------------------------------------------------

  function Reclaimer(s: State, step: OwnStep): State {
    SetThread(s, 0, Thread(Own(Watchdog, step), Empty, NOW))
  }

  /** register_callbacks() by the watchdog up to a refused handle. */
  lemma HandleRefused(s: State) returns (s': State)
    requires Reachable(s) && 0 in s.threads && s.threads[0] == Thread(Own(Watchdog, P1Want), Empty, NOW)
    requires s.writer.None? && s.readers == multiset{} && s.handle == Some(0) && s.live == {0}
    ensures Reachable(s')
    ensures s' == Reclaimer(s, P3Want(None)).(handle := None, live := {}, deleted := s.deleted + 1, latest := None)
  {
    var s1 := Reclaimer(s, P1Inside).(writer := Some(0));
    Then(s, Move(0, Proceed), s1);
    var s2 := Reclaimer(s1, P1Deleting).(live := {}, deleted := s.deleted + 1);
    assert s1.live - {0} == {};
    Then(s1, Move(0, Proceed), s2);
    var s3 := Reclaimer(s2, P1Clearing);
    Then(s2, Move(0, Proceed), s3);
    var s4 := Reclaimer(s3, P2Creating).(handle := None, writer := None);
    Then(s3, Move(0, Proceed), s4);
    s' := Reclaimer(s4, P3Want(None)).(latest := None);
    Then(s4, Move(0, Fail), s');
  }

  lemma RefusalInstalled(s: State) returns (s': State)
    requires Reachable(s) && 0 in s.threads && s.threads[0] == Thread(Own(Watchdog, P3Want(None)), Empty, NOW)
    requires s.writer.None? && s.readers == multiset{} && s.handle.None?
    ensures Reachable(s') && s' == Reclaimer(s, Registered)
  {
    var s1 := Reclaimer(s, P3Inside(None)).(writer := Some(0));
    Then(s, Move(0, Proceed), s1);
    var s2 := Reclaimer(s1, P4Checking).(writer := None);
    Then(s1, Move(0, Proceed), s2);
    s' := Reclaimer(s2, Registered);
    Then(s2, Move(0, Proceed), s');
  }

  /** The watchdog finds no handle to restart and gives up the flag. */
  lemma AttemptEnds(s: State) returns (s': State)
    requires Reachable(s) && 0 in s.threads && s.threads[0] == Thread(Own(Watchdog, Registered), Empty, NOW)
    requires s.writer.None? && s.readers == multiset{} && s.handle.None?
    ensures Reachable(s')
    ensures s' == SetThread(s, 0, Thread(WdSleeping, Empty, NOW)).(
                    active := false, owner := None, nullAttempts := s.nullAttempts + 1)
  {
    var s1 := Reclaimer(s, Reading).(readers := multiset{0});
    assert s.readers + multiset{0} == multiset{0};
    Then(s, Move(0, Proceed), s1);
    var s2 := Reclaimer(s1, Got(None)).(readers := multiset{});
    assert s1.readers - multiset{0} == multiset{};
    Then(s1, Move(0, Proceed), s2);
    var s3 := Reclaimer(s2, Releasing(true));
    Then(s2, Move(0, Proceed), s3);
    s' := SetThread(s3, 0, Thread(WdSleeping, Empty, NOW)).(
            active := false, owner := None, nullAttempts := s.nullAttempts + 1);
    Then(s3, Move(0, Proceed), s');
  }

  /** The HAL refuses the handle; then client and watchdog are at rest. */
  lemma RefusedReclaim() returns (s: State)
    ensures Reachable(s)
    ensures s.threads == map[0 := Thread(WdSleeping, Empty, NOW), 1 := Thread(StReturned, Empty, NOW)]
    ensures s.lastGps == 1 && s.clock == 10002 && s.handle.None? && !s.active
  {
    var s1 := SilenceAfterStart();
    var s2 := HandleRefused(s1);
    var s3 := RefusalInstalled(s2);
    var s4 := AttemptEnds(s3);
    s := SetThread(s4, 1, Thread(StReturned, Empty, NOW));
    assert s4.threads[1] == Thread(StInStart, Empty, NOW);
    Then(s4, Move(1, Proceed), s);
    assert s.threads == map[0 := Thread(WdSleeping, Empty, NOW), 1 := Thread(StReturned, Empty, NOW)];
  }

  lemma PairRests(s: State)
    requires s.threads == map[0 := Thread(WdSleeping, Empty, NOW), 1 := Thread(StReturned, Empty, NOW)]
    ensures Calm(s) && Looping(s, 0)
  {
  }

  /** 10 s of silence do not always lead to a reclaim: after one in which the HAL refused the handle, the armed
      watchdog finds no handle, in the calm state reached here and in every run that installs none. */
  lemma SilenceUnreclaimed() returns (s: State)
    ensures Reachable(s) && Calm(s) && Stale(s.lastGps, s.clock) && s.handle.None? && !s.active
    ensures 0 in s.threads && s.threads[0].pc == WdSleeping
    ensures forall acts :: HandleMissing(s, acts) ==> Looping(Exec(s, acts), 0)
  {
    s := RefusedReclaim();
    PairRests(s);
    ReachableHolds(s);
    forall acts | HandleMissing(s, acts)
      ensures Looping(Exec(s, acts), 0)
    {
      SilenceMayLast(s, acts, 0);
    }
  }
}
