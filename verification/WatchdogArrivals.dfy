/** The watchdog and the arrival of data: bounds stated over when data callbacks begin, of either kind, and
    when starts sample the clock, rather than over what they store. */
module WatchdogArrivals {
  import opened Prelude
  import opened Reclaim
  import opened ReclaimInvariant
  import opened ReclaimOwner
  import opened ReclaimMoves
  import opened ReclaimTheorems
  import opened ReclaimData
  import opened WatchdogTiming

  /** When the watchdog last loaded a time, when data or a start last arrived, and since when threads
      are on their way from an arrival to the store. */
  datatype Log = Log(loaded: nat, latest: nat, waiting: map<Tid, nat>)

  function LogAfter(s: State, a: Action, w: Tid, log: Log): Log {
    var s' := After(s, a);
    Log(if a == Move(w, Proceed) && w in s.threads && s.threads[w].pc.WdSleeping? then s.clock else log.loaded,
        if Arrives(s, a) then s.clock else log.latest,
        if Arrives(s, a) then log.waiting[a.t := s.clock]
        else if a.Move? && Next(s, a).Some? && a.t in s'.threads && !Waits(s'.threads[a.t]) then log.waiting - {a.t}
        else log.waiting)
  }

  /** While armed, the last arrival is at most `gap` old; every arrival is stored within `delay`; the
      watchdog reads the clock at most `pass` after it has loaded a time. */
  predicate DataFlows(s: State, w: Tid, log: Log, b: Bounds) {
    && (s.lastGps > 0 ==> s.clock <= log.latest + b.gap)
    && (forall t :: t in log.waiting ==> s.clock <= log.waiting[t] + b.delay)
    && (w in s.threads && s.threads[w].pc.WdLoaded? && s.threads[w].pc.last > 0 ==> s.clock <= log.loaded + b.pass)
  }

  predicate FlowingRun(s: State, acts: seq<Action>, w: Tid, log: Log, b: Bounds)
    decreases |acts|
  {
    && DataFlows(s, w, log, b)
    && (acts != [] ==> FlowingRun(After(s, acts[0]), acts[1..], w, LogAfter(s, acts[0], w, log), b))
  }

  // --- The invariant ---------------------------------------------------------------------------

  /** The log names exactly the threads on their way, and their samples are not older than their arrival. */
  ghost predicate Logged(s: State, log: Log) {
    && log.latest <= s.clock
    && (forall t :: t in log.waiting <==> t in s.threads && Waits(s.threads[t]))
    && (forall t :: t in log.waiting ==> t in s.threads && log.waiting[t] <= s.clock)
    && (forall t :: t in log.waiting && Sample(s.threads[t]).Some? ==> log.waiting[t] <= Sample(s.threads[t]).value)
  }

  /** What is stored is not much older than the last arrival, or than one still on its way. */
  predicate StoredRecently(lastGps: nat, log: Log, b: Bounds) {
    lastGps > 0 ==>
      if log.waiting == map[] then log.latest <= lastGps + b.delay
      else exists t :: t in log.waiting && log.waiting[t] <= lastGps + b.delay + b.gap
  }

  predicate LoadedRecently(s: State, w: Tid, log: Log, b: Bounds)
    requires w in s.threads
  {
    var pc := s.threads[w].pc;
    pc.WdLoaded? && pc.last > 0 ==> log.loaded <= pc.last + b.gap + 2 * b.delay
  }

  /** So while data flows the stored time is at most gap + 2 * delay old. */
  lemma AgeBounded(s: State, w: Tid, log: Log, b: Bounds)
    requires DataFlows(s, w, log, b) && StoredRecently(s.lastGps, log, b) && s.lastGps > 0
    ensures s.clock <= s.lastGps + b.gap + 2 * b.delay
  {
    if log.waiting != map[] {
      var t :| t in log.waiting && log.waiting[t] <= s.lastGps + b.delay + b.gap;
    }
  }

  lemma OthersLogged(s: State, a: Action, s': State, w: Tid, log: Log, u: Tid)
    requires Inv(s) && Next(s, a) == Some(s') && Logged(s, log) && (!a.Move? || a.t != u)
    ensures u in LogAfter(s, a, w, log).waiting <==> u in log.waiting
    ensures u in log.waiting ==> LogAfter(s, a, w, log).waiting[u] == log.waiting[u]
    ensures u in s'.threads && Waits(s'.threads[u]) <==> u in s.threads && Waits(s.threads[u])
    ensures u in log.waiting ==> u in s'.threads && s'.threads[u] == s.threads[u]
  {
    if u in s.threads {
      OtherActionLeaves(s, a, s', u);
    } else if u in s'.threads {
      NewcomersDoNotWait(s, a, s', u);
    }
  }

  lemma NewcomersDoNotWait(s: State, a: Action, s': State, u: Tid)
    requires Inv(s) && Next(s, a) == Some(s') && u !in s.threads && u in s'.threads
    ensures !Waits(s'.threads[u])
  {
    if a.Move? {
      var th := s.threads[a.t];
      if th.stack.Push? {
        FrameMoves(s, a.t, a.env, s');
      } else if !a.env.CallBack? && !th.pc.StSpawning? {
        PcMoves(s, a.t, a.env, s');
      }
    }
  }

  /** The mover's own entry in the log. */
  lemma MoverLogged(s: State, a: Action, s': State, w: Tid, log: Log)
    requires Inv(s) && Next(s, a) == Some(s') && Logged(s, log) && a.Move?
    ensures var t := a.t; var log' := LogAfter(s, a, w, log);
            && t in s'.threads
            && (t in log'.waiting <==> Waits(s'.threads[t]))
            && (t in log'.waiting ==> log'.waiting[t] <= s.clock)
            && (t in log'.waiting && Sample(s'.threads[t]).Some? ==> log'.waiting[t] <= Sample(s'.threads[t]).value)
  {
    MoveWaits(s, a.t, a.env, s');
  }

  lemma LogKept(s: State, a: Action, s': State, w: Tid, log: Log)
    requires Inv(s) && Next(s, a) == Some(s') && Logged(s, log)
    ensures Logged(s', LogAfter(s, a, w, log))
  {
    var log' := LogAfter(s, a, w, log);
    ClockForward(s, a, s');
    forall u
      ensures u in log'.waiting <==> u in s'.threads && Waits(s'.threads[u])
      ensures u in log'.waiting ==> u in s'.threads && log'.waiting[u] <= s'.clock
      ensures u in log'.waiting && Sample(s'.threads[u]).Some? ==> log'.waiting[u] <= Sample(s'.threads[u]).value
    {
      if a.Move? && a.t == u {
        MoverLogged(s, a, s', w, log);
      } else {
        OthersLogged(s, a, s', w, log, u);
      }
    }
  }

  lemma ClockForward(s: State, a: Action, s': State)
    requires Inv(s) && Next(s, a) == Some(s')
    ensures s.clock <= s'.clock
  {
    if s.threads != map[] {
      var u :| u in s.threads;
      if a.Move? && a.t == u {
        if s.threads[u].stack.Push? {
          FrameMoves(s, u, a.env, s');
        } else if !a.env.CallBack? && !s.threads[u].pc.StSpawning? {
          PcMoves(s, u, a.env, s');
        }
      } else {
        OtherActionLeaves(s, a, s', u);
      }
    }
  }

  // --- How an action changes what is stored recently ---------------------------------------------

  /** An arrival: nobody's store is later for it. */
  lemma ArrivalKeeps(lastGps: nat, log: Log, log': Log, t: Tid, clock: nat, b: Bounds)
    requires StoredRecently(lastGps, log, b) && (lastGps > 0 ==> clock <= log.latest + b.gap)
    requires t !in log.waiting && log'.waiting == log.waiting[t := clock]
    ensures StoredRecently(lastGps, log', b)
  {
    if lastGps > 0 {
      if log.waiting == map[] {
        assert t in log'.waiting && log'.waiting[t] == clock;
      } else {
        var u :| u in log.waiting && log.waiting[u] <= lastGps + b.delay + b.gap;
        assert u in log'.waiting && log'.waiting[u] == log.waiting[u];
      }
    }
  }

  /** A store within `delay` of an arrival: all arrivals are at most `delay` later than what is stored now. */
  lemma StoreKeeps(now: nat, log': Log, clock: nat, b: Bounds)
    requires clock <= now + b.delay && log'.latest <= clock
    requires forall u :: u in log'.waiting ==> log'.waiting[u] <= clock
    ensures StoredRecently(now, log', b)
  {
    if log'.waiting != map[] {
      var u :| u in log'.waiting;
      assert log'.waiting[u] <= now + b.delay + b.gap;
    }
  }

  lemma ArrivalStep(s: State, a: Action, s': State, w: Tid, log: Log, b: Bounds)
    requires Inv(s) && Next(s, a) == Some(s') && Logged(s, log) && Arrives(s, a)
    requires DataFlows(s, w, log, b) && StoredRecently(s.lastGps, log, b)
    ensures StoredRecently(s'.lastGps, LogAfter(s, a, w, log), b)
  {
    MoveWaits(s, a.t, a.env, s');
    ActionStores(s, a, s');
    if s'.lastGps > 0 {
      ArrivalKeeps(s.lastGps, log, LogAfter(s, a, w, log), a.t, s.clock, b);
    }
  }

  lemma StoreStepKeeps(s: State, a: Action, s': State, w: Tid, log: Log, b: Bounds)
    requires Inv(s) && Next(s, a) == Some(s') && Logged(s, log) && !Arrives(s, a) && Stores(s, a)
    requires DataFlows(s, w, log, b)
    ensures StoredRecently(s'.lastGps, LogAfter(s, a, w, log), b)
  {
    MoveWaits(s, a.t, a.env, s');
    StoresSample(s, a, s');
    assert a.t in log.waiting;
    StoreKeeps(s'.lastGps, LogAfter(s, a, w, log), s.clock, b);
  }

  lemma NobodyArrivesOrStores(s: State, a: Action, s': State, w: Tid, log: Log)
    requires Inv(s) && Next(s, a) == Some(s') && Logged(s, log) && !Arrives(s, a) && !Stores(s, a)
    ensures LogAfter(s, a, w, log).waiting == log.waiting && LogAfter(s, a, w, log).latest == log.latest
  {
    if a.Move? {
      MoveWaits(s, a.t, a.env, s');
      if !Waits(s'.threads[a.t]) {
        assert a.t !in log.waiting;
        assert log.waiting - {a.t} == log.waiting;
      }
    }
  }

  lemma QuietStepKeeps(s: State, a: Action, s': State, w: Tid, log: Log, b: Bounds)
    requires Inv(s) && Next(s, a) == Some(s') && Logged(s, log) && !Arrives(s, a) && !Stores(s, a)
    requires StoredRecently(s.lastGps, log, b)
    ensures StoredRecently(s'.lastGps, LogAfter(s, a, w, log), b)
  {
    ActionStores(s, a, s');
    NobodyArrivesOrStores(s, a, s', w, log);
  }

  lemma FlowStep(s: State, a: Action, w: Tid, log: Log, b: Bounds)
    requires Inv(s) && Logged(s, log) && DataFlows(s, w, log, b) && StoredRecently(s.lastGps, log, b)
    ensures var log' := LogAfter(s, a, w, log);
            Logged(After(s, a), log') && StoredRecently(After(s, a).lastGps, log', b)
  {
    if Next(s, a).Some? {
      var s' := After(s, a);
      LogKept(s, a, s', w, log);
      if Arrives(s, a) {
        ArrivalStep(s, a, s', w, log, b);
      } else if Stores(s, a) {
        StoreStepKeeps(s, a, s', w, log, b);
      } else {
        QuietStepKeeps(s, a, s', w, log, b);
      }
    } else {
      IdleLog(s, a, w, log);
    }
  }

  lemma IdleLog(s: State, a: Action, w: Tid, log: Log)
    requires Next(s, a).None?
    ensures LogAfter(s, a, w, log).latest == log.latest && LogAfter(s, a, w, log).waiting == log.waiting
  {
  }

  // --- The watchdog ----------------------------------------------------------------------------

  lemma LoadStep(s: State, w: Tid, log: Log, b: Bounds)
    requires Inv(s) && Watching(s, w) && s.threads[w].pc.WdSleeping?
    requires DataFlows(s, w, log, b) && StoredRecently(s.lastGps, log, b)
    ensures var a := Move(w, Proceed);
            Watching(After(s, a), w) && LoadedRecently(After(s, a), w, LogAfter(s, a, w, log), b)
  {
    WatchdogMove(s, w);
    if s.lastGps > 0 {
      AgeBounded(s, w, log, b);
    }
  }

  lemma CheckStep(s: State, w: Tid, log: Log, b: Bounds)
    requires Inv(s) && Watching(s, w) && s.threads[w].pc.WdLoaded? && LoadedRecently(s, w, log, b)
    requires DataFlows(s, w, log, b) && b.gap + 2 * b.delay + b.pass <= 10000
    ensures var s' := After(s, Move(w, Proceed)); Watching(s', w) && s'.threads[w].pc.WdSleeping?
  {
    WatchdogMove(s, w);
    assert Local(s, w, s.threads[w]);
  }

  lemma WatchStep(s: State, a: Action, w: Tid, log: Log, b: Bounds)
    requires Inv(s) && Watching(s, w) && LoadedRecently(s, w, log, b)
    requires DataFlows(s, w, log, b) && StoredRecently(s.lastGps, log, b)
    requires b.gap + 2 * b.delay + b.pass <= 10000
    ensures Watching(After(s, a), w) && LoadedRecently(After(s, a), w, LogAfter(s, a, w, log), b)
  {
    if a == Move(w, Proceed) {
      if s.threads[w].pc.WdSleeping? {
        LoadStep(s, w, log, b);
      } else {
        CheckStep(s, w, log, b);
      }
    } else if Next(s, a).Some? {
      assert a.Move? ==> a.t != w;
      OtherActionLeaves(s, a, After(s, a), w);
    }
  }

  lemma {:induction false} FlowKeepsWatching(s: State, acts: seq<Action>, w: Tid, log: Log, b: Bounds)
    requires Inv(s) && Watching(s, w) && Logged(s, log)
    requires StoredRecently(s.lastGps, log, b) && LoadedRecently(s, w, log, b)
    requires FlowingRun(s, acts, w, log, b) && b.gap + 2 * b.delay + b.pass <= 10000
    ensures Watching(Exec(s, acts), w)
    decreases |acts|
  {
    if acts != [] {
      FlowStep(s, acts[0], w, log, b);
      WatchStep(s, acts[0], w, log, b);
      if Next(s, acts[0]).Some? {
        NextKeeps(s, acts[0], After(s, acts[0]));
      }
      FlowKeepsWatching(After(s, acts[0]), acts[1..], w, LogAfter(s, acts[0], w, log), b);
    }
  }

  /** In every interleaving, with any number of stops: as long as, while armed, data callbacks begin (locations or
      satellites) or starts sample the clock at most `gap` ms apart, each is through with its store within `delay` ms,
      and the watchdog's two reads are at most `pass` ms apart, gap + 2 * delay + pass <= 10 s, the
      watchdog never leaves its loop to reclaim. */
  lemma SteadyArrivalsNeverReclaim(s: State, acts: seq<Action>, w: Tid, b: Bounds)
    requires Reachable(s) && w in s.threads && s.threads[w] == Thread(WdSleeping, Empty, s.threads[w].since)
    requires forall t :: t in s.threads ==> !Waits(s.threads[t])
    requires FlowingRun(s, acts, w, Log(0, s.lastGps, map[]), b) && b.gap + 2 * b.delay + b.pass <= 10000
    ensures Watching(Exec(s, acts), w)
  {
    ReachableHolds(s);
    FlowKeepsWatching(s, acts, w, Log(0, s.lastGps, map[]), b);
  }
}
