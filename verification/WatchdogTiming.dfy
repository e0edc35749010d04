/** When the watchdog reclaims: one undisturbed pass of its loop, and its passes in arbitrary
    interleavings with data, starts, stops and everything else. */
module WatchdogTiming {
  import opened Prelude
  import opened Reclaim
  import opened ReclaimInvariant
  import opened ReclaimOwner
  import opened ReclaimMoves
  import opened ReclaimTheorems

  /** The staleness test of one pass through the loop. */
  predicate Stale(last: nat, now: nat) {
    last != 0 && Elapsed(now, last) > STALE_AFTER_MS
  }

  /** The stored time is stale: armed, and more than 10 s old. */
  lemma StaleMeans(s: State)
    requires Reachable(s)
    ensures Stale(s.lastGps, s.clock) <==> s.lastGps > 0 && s.clock > s.lastGps + 10000
  {
    ReachableHolds(s);
  }

  function Passes(t: Tid, n: nat): (acts: seq<Action>)
    ensures |acts| == n
  {
    if n == 0 then [] else [Move(t, Proceed)] + Passes(t, n - 1)
  }

  lemma PassStep(s: State, t: Tid, n: nat)
    ensures Exec(s, Passes(t, n + 1)) == Exec(After(s, Move(t, Proceed)), Passes(t, n))
  {
    assert Passes(t, n + 1)[0] == Move(t, Proceed) && Passes(t, n + 1)[1..] == Passes(t, n);
  }

  /** A move of the watchdog while it is not the owner. */
  lemma WatchdogMove(s: State, t: Tid)
    requires t in s.threads && s.threads[t].stack.Empty?
    requires s.threads[t].pc.WdSleeping? || s.threads[t].pc.WdLoaded? || s.threads[t].pc.WdWant?
          || s.threads[t].pc.WdInside? || s.threads[t].pc.WdExchange?
    ensures Next(s, Move(t, Proceed)) == WatchdogStep(s, t, s.threads[t])
  {
  }

  /** The watchdog at the given point of its loop, with the exclusive lock free. */
  predicate Undisturbed(s: State, t: Tid, pc: Pc) {
    t in s.threads && s.threads[t].stack.Empty? && s.threads[t].pc == pc && s.writer.None?
  }

  predicate Reclaiming(s: State, t: Tid) {
    t in s.threads && s.threads[t].pc == Own(Watchdog, P1Want)
  }

  /** The end of a pass that has seen a handle. */
  lemma ExchangePass(s: State, t: Tid)
    requires Undisturbed(s, t, WdExchange)
    ensures var s' := Exec(s, Passes(t, 1));
            && (Reclaiming(s', t) <==> !s.active)
            && (Reclaiming(s', t) ==> s'.active && s'.owner == Some(t))
  {
    WatchdogMove(s, t);
    PassStep(s, t, 0);
  }

  /** The second half of a pass, from the request of the shared lock to the next sleep or the reclaim. */
  lemma LatePass(s: State, t: Tid)
    requires Undisturbed(s, t, WdWant)
    ensures var s' := Exec(s, Passes(t, 3));
            && (Reclaiming(s', t) <==> s.handle.Some? && !s.active)
            && (Reclaiming(s', t) ==> s'.active && s'.owner == Some(t))
  {
    WatchdogMove(s, t);
    var s1 := After(s, Move(t, Proceed));
    assert Undisturbed(s1, t, WdInside) && s1.handle == s.handle && s1.active == s.active;
    WatchdogMove(s1, t);
    var s2 := After(s1, Move(t, Proceed));
    PassStep(s, t, 2);
    PassStep(s1, t, 1);
    if s.handle.Some? {
      assert Undisturbed(s2, t, WdExchange) && s2.active == s.active;
      ExchangePass(s2, t);
    } else {
      assert Undisturbed(s2, t, WdSleeping);
      WatchdogMove(s2, t);
      PassStep(s2, t, 0);
    }
  }

  lemma FreshPass(s: State, t: Tid)
    requires Undisturbed(s, t, WdSleeping) && !Stale(s.lastGps, s.clock)
    ensures Exec(s, Passes(t, 2)) == s
  {
    WatchdogMove(s, t);
    var s1 := After(s, Move(t, Proceed));
    assert s1 == SetThread(s, t, Goto(s.threads[t], WdLoaded(s.lastGps)));
    WatchdogMove(s1, t);
    assert s == SetThread(s1, t, Goto(s1.threads[t], WdSleeping)) by {
      assert s.threads == s.threads[t := Goto(s1.threads[t], WdSleeping)];
    }
    PassStep(s, t, 1);
    PassStep(s1, t, 0);
  }

  /** An undisturbed pass enters register_callbacks(), as owner of the flag, if and only if the stored
      time is stale, a handle is installed and the flag is free; a pass that finds fresh data changes nothing. */
  lemma PassReclaimsIff(s: State, t: Tid)
    requires Undisturbed(s, t, WdSleeping)
    ensures !Stale(s.lastGps, s.clock) ==> Exec(s, Passes(t, 2)) == s
    ensures Stale(s.lastGps, s.clock) ==>
              var s' := Exec(s, Passes(t, 5));
              && (Reclaiming(s', t) <==> s.handle.Some? && !s.active)
              && (Reclaiming(s', t) ==> s'.active && s'.owner == Some(t))
  {
    if Stale(s.lastGps, s.clock) {
      WatchdogMove(s, t);
      var s1 := After(s, Move(t, Proceed));
      assert s1 == SetThread(s, t, Goto(s.threads[t], WdLoaded(s.lastGps)));
      WatchdogMove(s1, t);
      var s2 := After(s1, Move(t, Proceed));
      assert s2 == SetThread(s1, t, Goto(s1.threads[t], WdWant));
      PassStep(s, t, 4);
      PassStep(s1, t, 3);
      LatePass(s2, t);
    } else {
      FreshPass(s, t);
    }
  }

  // --- Who stores the time -----------------------------------------------------------------

  /** The sample of the clock that a thread has taken and not yet stored. */
  function Sample(th: Thread): Option<nat> {
    if th.stack.Push? then (if th.stack.top.CbStoring? then Some(th.stack.top.now) else None)
    else match th.pc
      case StStoring(_, now) => Some(now)
      case Own(_, Storing(_, now)) => Some(now)
      case _ => None
  }

  /** A callback with data, or a start, stores its sample. */
  predicate Stores(s: State, a: Action) {
    a.Move? && a.env == Proceed && a.t in s.threads && Sample(s.threads[a.t]).Some?
  }

  predicate StoreOrStop(s: State, s': State, th: Thread, env: Env) {
    || s'.lastGps == s.lastGps || s'.lastGps == 0
    || (env == Proceed && Sample(th) == Some(s'.lastGps))
  }

  lemma FrameStores(s: State, t: Tid, th: Thread, env: Env, s': State)
    requires th.stack.Push? && FrameStep(s, t, th, env) == Some(s')
    ensures StoreOrStop(s, s', th, env)
  {
  }

  lemma RegisterStores(s: State, t: Tid, th: Thread, env: Env, s': State)
    requires th.pc.Own? && RegisterStep(s, t, th, th.pc.role, env) == Some(s')
    ensures s'.lastGps == s.lastGps
  {
  }

  lemma RestartStores(s: State, t: Tid, th: Thread, s': State)
    requires th.stack.Empty? && th.pc.Own? && RestartStep(s, t, th, th.pc.role) == Some(s')
    ensures StoreOrStop(s, s', th, Proceed)
  {
  }

  lemma StartStores(s: State, t: Tid, th: Thread, s': State)
    requires th.stack.Empty? && StartStep(s, t, th) == Some(s')
    ensures StoreOrStop(s, s', th, Proceed)
  {
  }

  lemma StopStores(s: State, t: Tid, th: Thread, s': State)
    requires StopStep(s, t, th) == Some(s')
    ensures s'.lastGps == s.lastGps || s'.lastGps == 0
  {
  }

  lemma WatchdogStores(s: State, t: Tid, th: Thread, s': State)
    requires WatchdogStep(s, t, th) == Some(s')
    ensures s'.lastGps == s.lastGps
  {
  }

  lemma PcStores(s: State, t: Tid, th: Thread, env: Env, s': State)
    requires th.stack.Empty? && PcStep(s, t, th, env) == Some(s')
    ensures StoreOrStop(s, s', th, env)
  {
    if env.CallBack? {
    } else if th.pc.Own? {
      if Registering(th.pc.step) {
        RegisterStores(s, t, th, env, s');
      } else {
        RestartStores(s, t, th, s');
      }
    } else if StartStep(s, t, th).Some? {
      StartStores(s, t, th, s');
    } else if StopStep(s, t, th).Some? {
      StopStores(s, t, th, s');
    } else {
      WatchdogStores(s, t, th, s');
    }
  }

  /** Every action leaves the stored time alone, clears it, or stores a sample. */
  lemma ActionStores(s: State, a: Action, s': State)
    requires Next(s, a) == Some(s')
    ensures || s'.lastGps == s.lastGps || s'.lastGps == 0
            || (Stores(s, a) && Sample(s.threads[a.t]) == Some(s'.lastGps))
  {
    if a.Move? {
      if s.threads[a.t].stack.Push? {
        FrameStores(s, a.t, s.threads[a.t], a.env, s');
      } else {
        PcStores(s, a.t, s.threads[a.t], a.env, s');
      }
    }
  }

  // --- Steady data in any interleaving -----------------------------------------------------

  /** w is the watchdog in its loop, outside the part of a pass that leads to a reclaim. */
  predicate Watching(s: State, w: Tid) {
    w in s.threads && s.threads[w].stack.Empty? && (s.threads[w].pc.WdSleeping? || s.threads[w].pc.WdLoaded?)
  }

  /** When the watchdog last loaded last_gps_ms, and when a callback or start last stored into it. */
  datatype Times = Times(loaded: nat, stored: nat)

  function TimesAfter(s: State, a: Action, w: Tid, times: Times): Times {
    Times(if a == Move(w, Proceed) && w in s.threads && s.threads[w].pc.WdSleeping? then s.clock else times.loaded,
          if Stores(s, a) then s.clock else times.stored)
  }

  /** Bounds in ms: from one store to the next, from a sample to its store, and between the
      watchdog's two reads. */
  datatype Bounds = Bounds(gap: nat, delay: nat, pass: nat)

  /** While armed, the last store is at most `gap` old; no sample waits longer than `delay`; the
      watchdog reads the clock at most `pass` after it has loaded a time. */
  predicate SteadyAt(s: State, w: Tid, times: Times, b: Bounds) {
    && (s.lastGps > 0 ==> s.clock <= times.stored + b.gap)
    && (forall t :: t in s.threads && Sample(s.threads[t]).Some? ==> s.clock <= Sample(s.threads[t]).value + b.delay)
    && (w in s.threads && s.threads[w].pc.WdLoaded? && s.threads[w].pc.last > 0 ==> s.clock <= times.loaded + b.pass)
  }

  predicate SteadyRun(s: State, acts: seq<Action>, w: Tid, times: Times, b: Bounds)
    decreases |acts|
  {
    && SteadyAt(s, w, times, b)
    && (acts != [] ==> SteadyRun(After(s, acts[0]), acts[1..], w, TimesAfter(s, acts[0], w, times), b))
  }

  /** What is stored lags its store by at most `delay`; what the watchdog has loaded was recent then. */
  predicate Recent(s: State, w: Tid, times: Times, b: Bounds)
    requires w in s.threads
  {
    && (s.lastGps > 0 ==> times.stored <= s.lastGps + b.delay)
    && var pc := s.threads[w].pc;
       (pc.WdLoaded? && pc.last > 0 ==> times.loaded <= pc.last + b.gap + b.delay)
  }

  lemma WatchdogSteadyStep(s: State, w: Tid, times: Times, b: Bounds)
    requires Inv(s) && Watching(s, w) && Recent(s, w, times, b)
    requires SteadyAt(s, w, times, b) && b.gap + b.delay + b.pass <= STALE_AFTER_MS
    ensures var a := Move(w, Proceed);
            Watching(After(s, a), w) && Recent(After(s, a), w, TimesAfter(s, a, w, times), b)
  {
    WatchdogMove(s, w);
    assert Local(s, w, s.threads[w]);
    var s' := After(s, Move(w, Proceed));
    assert s'.lastGps == s.lastGps && !Stores(s, Move(w, Proceed));
    assert s.threads[w].pc.WdLoaded? ==> s'.threads[w].pc.WdSleeping?;
  }

  lemma StoresSample(s: State, a: Action, s': State)
    requires Next(s, a) == Some(s') && Stores(s, a)
    ensures Sample(s.threads[a.t]) == Some(s'.lastGps)
  {
    var th := s.threads[a.t];
    if th.stack.Empty? && th.pc.Own? {
      assert RestartStep(s, a.t, th, th.pc.role) == Some(s');
    }
  }

  /** A step of another thread: what is stored still lags its store by at most `delay`. */
  lemma StoreStep(s: State, a: Action, s': State, times: Times, b: Bounds)
    requires Next(s, a) == Some(s')
    requires s.lastGps > 0 ==> times.stored <= s.lastGps + b.delay
    requires forall t :: t in s.threads && Sample(s.threads[t]).Some? ==> s.clock <= Sample(s.threads[t]).value + b.delay
    ensures s'.lastGps > 0 ==> (if Stores(s, a) then s.clock else times.stored) <= s'.lastGps + b.delay
  {
    ActionStores(s, a, s');
    if Stores(s, a) {
      StoresSample(s, a, s');
    }
  }

  lemma OtherSteadyStep(s: State, a: Action, s': State, w: Tid, times: Times, b: Bounds)
    requires Inv(s) && Watching(s, w) && Recent(s, w, times, b) && SteadyAt(s, w, times, b)
    requires Next(s, a) == Some(s') && (a.Move? ==> a.t != w)
    ensures Watching(s', w) && Recent(s', w, TimesAfter(s, a, w, times), b)
  {
    StoreStep(s, a, s', times, b);
    OtherActionLeaves(s, a, s', w);
  }

  lemma SteadyStep(s: State, a: Action, w: Tid, times: Times, b: Bounds)
    requires Inv(s) && Watching(s, w) && Recent(s, w, times, b)
    requires SteadyAt(s, w, times, b) && b.gap + b.delay + b.pass <= STALE_AFTER_MS
    ensures Watching(After(s, a), w)
    ensures Recent(After(s, a), w, TimesAfter(s, a, w, times), b)
  {
    if a == Move(w, Proceed) {
      WatchdogSteadyStep(s, w, times, b);
    } else if Next(s, a).Some? {
      assert a.Move? ==> a.t != w;
      OtherSteadyStep(s, a, After(s, a), w, times, b);
    }
  }

  lemma {:induction false} SteadyKeepsWatching(s: State, acts: seq<Action>, w: Tid, times: Times, b: Bounds)
    requires Inv(s) && Watching(s, w) && Recent(s, w, times, b)
    requires SteadyRun(s, acts, w, times, b) && b.gap + b.delay + b.pass <= STALE_AFTER_MS
    ensures Watching(Exec(s, acts), w)
    decreases |acts|
  {
    if acts != [] {
      SteadyStep(s, acts[0], w, times, b);
      if Next(s, acts[0]).Some? {
        NextKeeps(s, acts[0], After(s, acts[0]));
      }
      SteadyKeepsWatching(After(s, acts[0]), acts[1..], w, TimesAfter(s, acts[0], w, times), b);
    }
  }

  /** In every interleaving, with any number of stops: as long as data callbacks and starts store
      their samples at most `gap` ms apart while armed and each within `delay` ms, and the watchdog's two
      reads are at most `pass` ms apart, gap + delay + pass <= 10 s, it never leaves its loop to reclaim. */
  lemma SteadyInterleavingsNeverReclaim(s: State, acts: seq<Action>, w: Tid, b: Bounds)
    requires Reachable(s) && w in s.threads && s.threads[w] == Thread(WdSleeping, Empty, s.threads[w].since)
    requires SteadyRun(s, acts, w, Times(0, s.lastGps), b) && b.gap + b.delay + b.pass <= 10000
    ensures Watching(Exec(s, acts), w)
  {
    ReachableHolds(s);
    SteadyKeepsWatching(s, acts, w, Times(0, s.lastGps), b);
  }

  // --- Silence in any interleaving ---------------------------------------------------------

  /** w is the watchdog anywhere in its loop, its reclaim excepted. */
  predicate Looping(s: State, w: Tid) {
    w in s.threads && s.threads[w].stack.Empty? && WatchdogPc(s.threads[w].pc)
  }

  /** When the watchdog last found the stored time fresh. */
  function CheckTime(s: State, a: Action, w: Tid, checkedAt: nat): nat {
    if a == Move(w, Proceed) && w in s.threads && s.threads[w].pc.WdLoaded? && !Stale(s.threads[w].pc.last, s.clock)
    then s.clock
    else checkedAt
  }

  /** As long as the watchdog loops: nothing has stored a time since `a`, a handle is installed and the flag free, and
      the next pass is through its check, and through what a stale check leads to, within `period` ms. */
  predicate SilentRun(s: State, acts: seq<Action>, w: Tid, a: nat, checkedAt: nat, period: nat)
    decreases |acts|
  {
    Looping(s, w) ==>
      && s.lastGps == a && s.handle.Some? && !s.active && s.clock <= checkedAt + period
      && (acts != [] ==> SilentRun(After(s, acts[0]), acts[1..], w, a, CheckTime(s, acts[0], w, checkedAt), period))
  }

  /** The watchdog has loaded `a`, and is past its check only if that is stale. */
  predicate OnTrack(s: State, w: Tid, a: nat)
    requires w in s.threads
  {
    match s.threads[w].pc
    case WdSleeping => true
    case WdLoaded(last) => last == a
    case _ => s.clock > a + STALE_AFTER_MS
  }

  lemma WatchdogSilentStep(s: State, w: Tid, a: nat, checkedAt: nat)
    requires Inv(s) && Looping(s, w) && OnTrack(s, w, a) && s.lastGps == a > 0
    requires s.handle.Some? && !s.active && checkedAt <= a + STALE_AFTER_MS
    ensures var act := Move(w, Proceed);
            var s' := After(s, act);
            if Looping(s', w)
            then OnTrack(s', w, a) && CheckTime(s, act, w, checkedAt) <= a + STALE_AFTER_MS
            else Reclaiming(s', w) && s'.active && s'.owner == Some(w) && s'.clock == s.clock > a + STALE_AFTER_MS
  {
    assert Local(s, w, s.threads[w]);
    WatchdogMove(s, w);
  }

  /** A step in a silent run: the watchdog loops on, or it begins a reclaim in time. */
  lemma SilentStep(s: State, act: Action, w: Tid, a: nat, checkedAt: nat)
    requires Inv(s) && Looping(s, w) && OnTrack(s, w, a) && s.lastGps == a > 0
    requires s.handle.Some? && !s.active && checkedAt <= a + STALE_AFTER_MS
    ensures var s' := After(s, act);
            if Looping(s', w)
            then OnTrack(s', w, a) && CheckTime(s, act, w, checkedAt) <= a + STALE_AFTER_MS
            else Reclaiming(s', w) && s'.active && s'.owner == Some(w) && s'.clock == s.clock > a + STALE_AFTER_MS
  {
    if act == Move(w, Proceed) {
      WatchdogSilentStep(s, w, a, checkedAt);
    } else if Next(s, act).Some? {
      assert act.Move? ==> act.t != w;
      OtherActionLeaves(s, act, After(s, act), w);
    }
  }

  lemma {:induction false} SilenceEnds(s: State, acts: seq<Action>, w: Tid, a: nat, checkedAt: nat, period: nat)
    returns (k: nat)
    requires Inv(s) && Looping(s, w) && OnTrack(s, w, a) && a > 0
    requires checkedAt <= a + STALE_AFTER_MS && SilentRun(s, acts, w, a, checkedAt, period)
    requires Exec(s, acts).clock > a + STALE_AFTER_MS + period
    ensures k <= |acts|
    ensures var s' := Exec(s, acts[..k]);
            && Reclaiming(s', w) && s'.active && s'.owner == Some(w)
            && a + STALE_AFTER_MS < s'.clock <= a + STALE_AFTER_MS + period
    decreases |acts|
  {
    assert acts != [];
    SilentStep(s, acts[0], w, a, checkedAt);
    var s' := After(s, acts[0]);
    if Looping(s', w) {
      if Next(s, acts[0]).Some? {
        NextKeeps(s, acts[0], s');
      }
      var k' := SilenceEnds(s', acts[1..], w, a, CheckTime(s, acts[0], w, checkedAt), period);
      k := k' + 1;
      assert acts[..k][0] == acts[0] && acts[..k][1..] == acts[1..][..k'];
    } else {
      k := 1;
      assert acts[..1][0] == acts[0] && acts[..1][1..] == [];
      assert Exec(s', []) == s';
    }
  }

  /** In every interleaving: if nothing stores a time after `a`, a handle stays installed and the flag free, and passes
      take turns within `period` ms, a run that goes on past a + 10000 + period contains a moment inside
      (a + 10000, a + 10000 + period] at which the watchdog, as owner of the flag, enters register_callbacks(). */
  lemma SilentInterleavingsAreReclaimed(s: State, acts: seq<Action>, w: Tid, a: nat, period: nat) returns (k: nat)
    requires Reachable(s) && w in s.threads && s.threads[w] == Thread(WdSleeping, Empty, s.threads[w].since)
    requires a > 0 && s.clock <= a + 10000 && SilentRun(s, acts, w, a, s.clock, period)
    requires Exec(s, acts).clock > a + 10000 + period
    ensures k <= |acts|
    ensures var s' := Exec(s, acts[..k]);
            && Reclaiming(s', w) && s'.active && s'.owner == Some(w)
            && a + 10000 < s'.clock <= a + 10000 + period
  {
    ReachableHolds(s);
    k := SilenceEnds(s, acts, w, a, s.clock, period);
  }

  /** The handle is missing, or the flag taken, in every state of the run. */
  predicate HandleMissing(s: State, acts: seq<Action>)
    decreases |acts|
  {
    s.handle.None? && (acts != [] ==> HandleMissing(After(s, acts[0]), acts[1..]))
  }

  predicate FlagTaken(s: State, acts: seq<Action>)
    decreases |acts|
  {
    s.active && (acts != [] ==> FlagTaken(After(s, acts[0]), acts[1..]))
  }

  lemma LoopStep(s: State, a: Action, w: Tid)
    requires Inv(s) && Looping(s, w)
    requires s.active || (s.handle.None? && !s.threads[w].pc.WdExchange?)
    ensures Looping(After(s, a), w)
    ensures s.handle.None? && !s.threads[w].pc.WdExchange? ==> !After(s, a).threads[w].pc.WdExchange?
  {
    var r := Next(s, a);
    if r.Some? {
      assert Local(s, w, s.threads[w]);
      if a == Move(w, Proceed) {
        WatchdogMove(s, w);
      } else {
        assert a.Move? ==> a.t != w;
        OtherActionLeaves(s, a, r.value, w);
      }
    }
  }

  /** However long the silence: without a handle, or with the flag taken, the watchdog reclaims nothing. */
  lemma {:induction false} SilenceMayLast(s: State, acts: seq<Action>, w: Tid)
    requires Inv(s) && Looping(s, w)
    requires FlagTaken(s, acts) || (HandleMissing(s, acts) && !s.threads[w].pc.WdExchange?)
    ensures Looping(Exec(s, acts), w)
    decreases |acts|
  {
    if acts != [] {
      LoopStep(s, acts[0], w);
      if Next(s, acts[0]).Some? {
        NextKeeps(s, acts[0], After(s, acts[0]));
      }
      SilenceMayLast(After(s, acts[0]), acts[1..], w);
    }
  }
}
