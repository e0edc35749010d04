/** The bound under which steady data keeps the watchdog in its loop cannot be improved. */
module WatchdogBounds {
  import opened Prelude
  import opened Reclaim
  import opened ReclaimTheorems
  import opened WatchdogTiming
  import opened ReclaimRuns

  // --- Steady runs, action by action -----------------------------------------------------------

  function TimesOver(s: State, acts: seq<Action>, w: Tid, times: Times): Times
    decreases |acts|
  {
    if acts == [] then times else TimesOver(After(s, acts[0]), acts[1..], w, TimesAfter(s, acts[0], w, times))
  }

  lemma {:induction false} SteadyAppend(s: State, acts: seq<Action>, a: Action, w: Tid, times: Times, b: Bounds)
    requires SteadyRun(s, acts, w, times, b)
    requires var last := Exec(s, acts);
             SteadyAt(After(last, a), w, TimesAfter(last, a, w, TimesOver(s, acts, w, times)), b)
    ensures SteadyRun(s, acts + [a], w, times, b)
    ensures Exec(s, acts + [a]) == After(Exec(s, acts), a)
    ensures TimesOver(s, acts + [a], w, times) == TimesAfter(Exec(s, acts), a, w, TimesOver(s, acts, w, times))
    decreases |acts|
  {
    var longer := acts + [a];
    if acts == [] {
      assert longer[0] == a && longer[1..] == [];
      var s' := After(s, a);
      assert SteadyRun(s', [], w, TimesAfter(s, a, w, times), b);
      assert Exec(s', []) == s';
    } else {
      assert longer[0] == acts[0] && longer[1..] == acts[1..] + [a];
      SteadyAppend(After(s, acts[0]), acts[1..], a, w, TimesAfter(s, acts[0], w, times), b);
    }
  }

  /** A steady run of the booted service, its watchdog being thread 0, ends in s at the given times. */
  ghost predicate Leads(s: State, times: Times, b: Bounds) {
    exists acts :: Traces(acts, s, times, b)
  }

  predicate Traces(acts: seq<Action>, s: State, times: Times, b: Bounds) {
    && SteadyRun(BOOTED, acts, 0, Times(0, 0), b)
    && Exec(BOOTED, acts) == s && TimesOver(BOOTED, acts, 0, Times(0, 0)) == times
  }

  lemma Onto(s: State, times: Times, b: Bounds, a: Action, s': State)
    requires Leads(s, times, b) && Next(s, a) == Some(s')
    requires SteadyAt(s', 0, TimesAfter(s, a, 0, times), b)
    ensures Leads(s', TimesAfter(s, a, 0, times), b)
  {
    var acts :| Traces(acts, s, times, b);
    SteadyAppend(BOOTED, acts, a, 0, Times(0, 0), b);
    assert Traces(acts + [a], s', TimesAfter(s, a, 0, times), b);
  }

  // --- The pieces of the run -------------------------------------------------------------------

  predicate NoSamples(s: State) { forall t :: t in s.threads ==> Sample(s.threads[t]).None? }

  /** A reclaim is possible, and new HAL threads may arrive. */
  predicate Ready(s: State) {
    && s.booted && s.writer.None? && s.handle.Some? && !s.active
    && 0 in s.threads && (forall t :: t in s.threads ==> t < s.nextTid) && NoSamples(s) && s.clock < 50000
  }

  /** A step of a thread other than the watchdog that stores nothing. */
  lemma AnotherMoves(s: State, times: Times, b: Bounds, a: Action, n: Tid, s': State)
    requires Leads(s, times, b) && SteadyAt(s, 0, times, b) && Next(s, a) == Some(s')
    requires n != 0 && n in s'.threads && s'.threads == s.threads[n := s'.threads[n]]
    requires s'.clock == s.clock && s'.lastGps == s.lastGps && !Stores(s, a)
    requires a.Move? ==> a.t != 0
    requires Sample(s'.threads[n]).Some? ==> Sample(s'.threads[n]).value == s.clock
    ensures Leads(s', times, b) && SteadyAt(s', 0, times, b)
  {
    assert TimesAfter(s, a, 0, times) == times;
    Onto(s, times, b, a, s');
  }

  lemma LocationReported(s: State, times: Times, b: Bounds) returns (s': State)
    requires Leads(s, times, b) && Ready(s) && SteadyAt(s, 0, times, b)
    ensures s' == s.(threads := s.threads[s.nextTid := Arrival(s, HalCallback).(stack := Push(CbWant(Location), Empty))],
                     nextTid := s.nextTid + 1)
    ensures Leads(s', times, b) && SteadyAt(s', 0, times, b)
  {
    var n := s.nextTid;
    var s1 := s.(threads := s.threads[n := Arrival(s, HalCallback)], nextTid := n + 1);
    AnotherMoves(s, times, b, Begin(HalCallback), n, s1);
    s' := WithStack(s1, n, Push(CbWant(Location), Empty));
    AnotherMoves(s1, times, b, Move(n, CallBack(Location)), n, s');
    assert s'.threads == s.threads[n := Arrival(s, HalCallback).(stack := Push(CbWant(Location), Empty))];
  }

  /** A new HAL thread with a location, up to its sample of the clock. */
  lemma SampleTaken(s: State, times: Times, b: Bounds) returns (s': State)
    requires Leads(s, times, b) && Ready(s) && SteadyAt(s, 0, times, b)
    ensures s' == s.(threads := s.threads[s.nextTid :=
                               Arrival(s, HalCallback).(stack := Push(CbStoring(Location, s.clock), Empty))],
                     nextTid := s.nextTid + 1, readers := s.readers + multiset{s.nextTid})
    ensures Leads(s', times, b) && SteadyAt(s', 0, times, b)
  {
    var n := s.nextTid;
    var s2 := LocationReported(s, times, b);
    var s3 := WithStack(s2, n, Push(CbInside(Location), Empty)).(readers := s.readers + multiset{n});
    AnotherMoves(s2, times, b, Move(n, Proceed), n, s3);
    s' := WithStack(s3, n, Push(CbStoring(Location, s.clock), Empty));
    AnotherMoves(s3, times, b, Move(n, Proceed), n, s');
    assert s'.threads == s.threads[n := Arrival(s, HalCallback).(stack := Push(CbStoring(Location, s.clock), Empty))];
  }

  lemma SampleStored(s: State, times: Times, b: Bounds, n: Tid, now: nat) returns (s': State)
    requires Leads(s, times, b) && n in s.threads && n != 0
    requires s.threads[n].stack == Push(CbStoring(Location, now), Empty)
    requires forall t :: t in s.threads && t != n ==> Sample(s.threads[t]).None?
    requires SteadyAt(s, 0, times, b)
    ensures s' == WithStack(s, n, Push(CbWantEmit(Location), Empty)).(lastGps := now)
    ensures Leads(s', Times(times.loaded, s.clock), b) && SteadyAt(s', 0, Times(times.loaded, s.clock), b)
  {
    s' := WithStack(s, n, Push(CbWantEmit(Location), Empty)).(lastGps := now);
    assert TimesAfter(s, Move(n, Proceed), 0, times) == Times(times.loaded, s.clock);
    Onto(s, times, b, Move(n, Proceed), s');
  }

  lemma TimePasses(s: State, times: Times, b: Bounds, ms: nat) returns (s': State)
    requires Leads(s, times, b) && s.clock + ms < UINT64
    requires SteadyAt(s.(clock := s.clock + ms), 0, times, b)
    ensures s' == s.(clock := s.clock + ms)
    ensures Leads(s', times, b)
  {
    s' := s.(clock := s.clock + ms);
    Onto(s, times, b, Advance(ms), s');
  }

  /** Fresh data, sampled and stored at once. */
  lemma Fed(s: State, times: Times, b: Bounds) returns (s': State)
    requires Leads(s, times, b) && Ready(s) && SteadyAt(s, 0, times, b)
    ensures Ready(s') && s'.threads[0] == s.threads[0] && s'.clock == s.clock
    ensures Leads(s', Times(times.loaded, s.clock), b) && SteadyAt(s', 0, Times(times.loaded, s.clock), b)
  {
    var s1 := SampleTaken(s, times, b);
    s' := SampleStored(s1, times, b, s.nextTid, s.clock);
  }

  /** Data keeps arriving for `rest` ms, never more than `gap` apart, while the watchdog is held up. */
  lemma {:induction false} FedFor(s: State, times: Times, b: Bounds, rest: nat) returns (s': State, times': Times)
    requires Leads(s, times, b) && Ready(s) && SteadyAt(s, 0, times, b)
    requires b.gap > 0 && s.threads[0].pc.WdLoaded? && s.clock + rest <= times.loaded + b.pass && s.clock + rest < 50000
    ensures Leads(s', times', b) && Ready(s') && SteadyAt(s', 0, times', b)
    ensures s'.threads[0] == s.threads[0] && s'.clock == s.clock + rest
    decreases rest
  {
    if rest == 0 {
      s', times' := s, times;
    } else {
      var s1 := Fed(s, times, b);
      var ms := if rest < b.gap then rest else b.gap;
      var s2 := TimePasses(s1, Times(times.loaded, s.clock), b, ms);
      s', times' := FedFor(s2, Times(times.loaded, s.clock), b, rest - ms);
    }
  }

  function Capped(ms: nat): nat { if ms <= STALE_AFTER_MS then ms else STALE_AFTER_MS + 1 }

  /** A sample taken at 1 ms and stored as late as allowed. */
  lemma StoredLate(b: Bounds) returns (s: State)
    ensures Leads(s, Times(0, s.clock), b) && Ready(s) && SteadyAt(s, 0, Times(0, s.clock), b)
    ensures s.threads[0] == Thread(WdSleeping, Empty, NOW) && s.lastGps == 1 && s.clock == 1 + Capped(b.delay)
  {
    assert Traces([], BOOTED, Times(0, 0), b);
    var s1 := SampleTaken(BOOTED, Times(0, 0), b);
    var s2 := TimePasses(s1, Times(0, 0), b, Capped(b.delay));
    s := SampleStored(s2, Times(0, 0), b, 1, 1);
  }

  /** A step of the watchdog itself. */
  lemma WatchdogMoves(s: State, times: Times, b: Bounds, pc: Pc, s': State)
    requires Leads(s, times, b) && SteadyAt(s, 0, times, b) && NoSamples(s) && 0 in s.threads
    requires s.threads[0].stack.Empty? && !s.threads[0].pc.WdSleeping? && !pc.WdLoaded?
    requires Next(s, Move(0, Proceed)) == Some(s')
    requires 0 in s'.threads && s'.threads[0].stack.Empty? && s'.threads[0].pc == pc && Sample(s'.threads[0]).None?
    requires s'.threads == s.threads[0 := s'.threads[0]] && s'.clock == s.clock && s'.lastGps == s.lastGps
    ensures Leads(s', times, b) && SteadyAt(s', 0, times, b) && NoSamples(s')
  {
    assert TimesAfter(s, Move(0, Proceed), 0, times) == times;
    Onto(s, times, b, Move(0, Proceed), s');
  }

  /** Then silence for as long as allowed, after which the watchdog loads the stored time. */
  lemma LoadedLate(b: Bounds) returns (s: State, times: Times)
    ensures Leads(s, times, b) && Ready(s) && SteadyAt(s, 0, times, b)
    ensures s.threads[0] == Thread(WdLoaded(1), Empty, NOW)
    ensures s.clock == times.loaded == 1 + Capped(b.delay) + Capped(b.gap)
  {
    var s1 := StoredLate(b);
    var s2 := TimePasses(s1, Times(0, s1.clock), b, Capped(b.gap));
    s := SetThread(s2, 0, Thread(WdLoaded(1), Empty, NOW));
    times := Times(s2.clock, s1.clock);
    assert TimesAfter(s2, Move(0, Proceed), 0, Times(0, s1.clock)) == times;
    Onto(s2, Times(0, s1.clock), b, Move(0, Proceed), s);
  }

  lemma StaleNoticed(s: State, times: Times, b: Bounds) returns (s': State)
    requires Leads(s, times, b) && Ready(s) && SteadyAt(s, 0, times, b)
    requires s.threads[0] == Thread(WdLoaded(1), Empty, NOW) && Stale(1, s.clock)
    ensures Leads(s', times, b) && SteadyAt(s', 0, times, b) && NoSamples(s')
    ensures s' == SetThread(s, 0, Thread(WdInside, Empty, NOW)).(readers := s.readers + multiset{0})
  {
    var s1 := SetThread(s, 0, Thread(WdWant, Empty, NOW));
    WatchdogMoves(s, times, b, WdWant, s1);
    s' := SetThread(s1, 0, Thread(WdInside, Empty, NOW)).(readers := s.readers + multiset{0});
    WatchdogMoves(s1, times, b, WdInside, s');
    assert s'.threads == s.threads[0 := Thread(WdInside, Empty, NOW)];
  }

  lemma HandleFound(s: State, times: Times, b: Bounds) returns (s': State)
    requires Leads(s, times, b) && SteadyAt(s, 0, times, b) && NoSamples(s) && s.handle.Some?
    requires 0 in s.threads && s.threads[0] == Thread(WdInside, Empty, NOW)
    ensures Leads(s', times, b) && SteadyAt(s', 0, times, b) && NoSamples(s')
    ensures s' == SetThread(s, 0, Thread(WdExchange, Empty, NOW)).(readers := s.readers - multiset{0})
  {
    s' := SetThread(s, 0, Thread(WdExchange, Empty, NOW)).(readers := s.readers - multiset{0});
    WatchdogMoves(s, times, b, WdExchange, s');
  }

  /** A watchdog that finds its time stale goes on to reclaim, however fresh the stored time is by now. */
  lemma StaleReclaims(s: State, times: Times, b: Bounds) returns (s': State)
    requires Leads(s, times, b) && Ready(s) && SteadyAt(s, 0, times, b)
    requires s.threads[0] == Thread(WdLoaded(1), Empty, NOW) && Stale(1, s.clock)
    ensures Leads(s', times, b) && Reclaiming(s', 0)
  {
    var s2 := StaleNoticed(s, times, b);
    var s3 := HandleFound(s2, times, b);
    s' := FlagWon(s3, times, b);
  }

  lemma FlagWon(s: State, times: Times, b: Bounds) returns (s': State)
    requires Leads(s, times, b) && SteadyAt(s, 0, times, b) && NoSamples(s) && s.handle.Some? && !s.active
    requires 0 in s.threads && s.threads[0] == Thread(WdExchange, Empty, NOW)
    ensures Leads(s', times, b) && Reclaiming(s', 0)
  {
    s' := SetThread(s, 0, Thread(Own(Watchdog, P1Want), Empty, Since(0, 0, s.stops))).(
            active := true, owner := Some(0));
    WatchdogMoves(s, times, b, Own(Watchdog, P1Want), s');
  }

  // --- The bound -------------------------------------------------------------------------------

  predicate WithinLimit(b: Bounds) { b.gap + b.delay + b.pass <= 10000 }

  /** Beyond the limit, a run of the booted service within the bounds ends with a reclaim, although data
      keeps arriving and nobody ever stops. */
  lemma SteadyRunMayReclaim(b: Bounds) returns (acts: seq<Action>)
    requires b.gap > 0 && !WithinLimit(b)
    ensures SteadyRun(BOOTED, acts, 0, Times(0, BOOTED.lastGps), b) && Reclaiming(Exec(BOOTED, acts), 0)
  {
    var s1, times1 := LoadedLate(b);
    var s2, times2 := FedFor(s1, times1, b, Capped(b.pass));
    var s3 := StaleReclaims(s2, times2, b);
    acts :| Traces(acts, s3, times2, b);
  }

  /** Exactly: data at most `gap` ms apart, stored within `delay`, and passes of at most `pass` ms keep the watchdog
      in its loop in every interleaving if and only if gap + delay + pass <= 10 s. */
  lemma SteadyBoundIsExact(b: Bounds)
    requires b.gap > 0
    ensures WithinLimit(b) <==>
              forall s, acts, w :: StartsSteady(s, acts, w, b) ==> Watching(Exec(s, acts), w)
  {
    if WithinLimit(b) {
      forall s, acts, w | StartsSteady(s, acts, w, b)
        ensures Watching(Exec(s, acts), w)
      {
        SteadyInterleavingsNeverReclaim(s, acts, w, b);
      }
    } else {
      var acts := SteadyRunMayReclaim(b);
      BootReachable();
      assert StartsSteady(BOOTED, acts, 0, b) && !Watching(Exec(BOOTED, acts), 0);
    }
  }

  /** A steady run from a reachable state with the watchdog asleep. */
  ghost predicate StartsSteady(s: State, acts: seq<Action>, w: Tid, b: Bounds) {
    && Reachable(s) && w in s.threads && s.threads[w] == Thread(WdSleeping, Empty, s.threads[w].since)
    && SteadyRun(s, acts, w, Times(0, s.lastGps), b)
  }
}
