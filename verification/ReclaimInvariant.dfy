/** The invariant of the reclaim protocol and its preservation by every action. */
module ReclaimInvariant {
  import opened Prelude
  import opened Reclaim

  function Count(b: bool): nat { if b then 1 else 0 }

  predicate FrameShares(f: Frame) { !f.CbWant? }

  /** How often the callbacks on a stack hold callback_mutex shared. */
  function StackShares(k: Stack): nat {
    match k
    case Empty => 0
    case Push(f, below) => Count(FrameShares(f)) + StackShares(below)
  }

  predicate PcShares(pc: Pc) {
    || pc.StInside? || pc.StDispatching? || pc.StUnlocking?
    || pc.SpInside? || pc.SpStopping? || pc.SpUnlocking?
    || pc.WdInside? || (pc.Own? && pc.step.Reading?)
  }

  function Shares(th: Thread): nat { Count(PcShares(th.pc)) + StackShares(th.stack) }

  predicate Excludes(pc: Pc) {
    pc.Own? && (pc.step.P1Inside? || pc.step.P1Deleting? || pc.step.P1Clearing? || pc.step.P3Inside?)
  }

  /** How many callbacks on a stack are emitting. */
  function Emissions(k: Stack): nat {
    match k
    case Empty => 0
    case Push(f, below) => Count(f.CbEmitting?) + Emissions(below)
  }

  predicate Emits(th: Thread) { Emissions(th.stack) > 0 }

  /** Running register_callbacks() or committed to it. */
  predicate OwnsFlag(pc: Pc) { pc.Own? || pc.StSpawning? }

  predicate StartPc(pc: Pc) {
    || pc.StTry? || pc.StInside? || pc.StDispatching? || pc.StUnlocking? || pc.StSampling?
    || pc.StStoring? || pc.StStarting? || pc.StInStart? || pc.StExchange? || pc.StSpawning? || pc.StReturned?
  }

  predicate StopPc(pc: Pc) {
    pc.SpClearing? || pc.SpTry? || pc.SpInside? || pc.SpStopping? || pc.SpUnlocking? || pc.SpReturned?
  }

  predicate WatchdogPc(pc: Pc) {
    pc.WdSleeping? || pc.WdLoaded? || pc.WdWant? || pc.WdInside? || pc.WdExchange?
  }

  /** Every callback below another one is inside a HAL call. */
  predicate AllCalling(k: Stack) {
    k.Push? ==> FrameInHal(k.top) && AllCalling(k.below)
  }

  predicate StackOk(th: Thread, clock: nat) {
    && (th.stack.Push? ==> InHal(th.pc) && AllCalling(th.stack.below))
    && (th.stack.Push? && th.stack.top.CbStoring? ==> 0 < th.stack.top.now <= clock)
  }

  /** The attempt still has its start ahead: it has not been given a null handle. */
  predicate StartAhead(pc: Pc, handle: Option<Handle>) {
    || pc.StSpawning?
    || (pc.Own? && pc.role != Boot && match pc.step
        case P1Want | P1Inside | P1Deleting | P1Clearing | P2Creating => true
        case P3Want(made) => made.Some?
        case P3Inside(made) => made.Some?
        case P4Checking | P4Dispatching | Registered | Reading => handle.Some?
        case Got(h) => h.Some?
        case Dispatching(_) | Sampling(_) | Storing(_, _) | Starting(_) => true
        case InStart(_) | Releasing(_) => false)
  }

  /** The attempt in flight has obtained a null handle. */
  predicate NullInFlight(pc: Pc, handle: Option<Handle>) {
    && pc.Own? && pc.role != Boot
    && match pc.step
       case P3Want(made) => made.None?
       case P3Inside(made) => made.None?
       case P4Checking | P4Dispatching | Registered | Reading => handle.None?
       case Got(h) => h.None?
       case Releasing(gotNull) => gotNull
       case _ => false
  }

  predicate OwnerPending(s: State) {
    && s.owner.Some? && s.owner.value in s.threads
    && var pc := s.threads[s.owner.value].pc;
       StartAhead(pc, s.handle) || NullInFlight(pc, s.handle)
  }

  /** A start_positioning() call with the given beginning has not been lost. */
  predicate Served(s: State, since: Since) {
    s.liveStarts > since.starts || s.nullAttempts > since.nulls || OwnerPending(s)
  }

  function AsSet(h: Option<Handle>): set<Handle> { if h.Some? then {h.value} else {} }

  /** The handles that exist, given where the owner is. */
  function ExpectedLive(handle: Option<Handle>, pc: Pc): set<Handle> {
    if pc.Own? then
      match pc.step
      case P1Deleting | P1Clearing | P2Creating => {}
      case P3Want(made) => AsSet(made)
      case P3Inside(made) => AsSet(made)
      case _ => AsSet(handle)
    else AsSet(handle)
  }

  predicate NothingInstalled(pc: Pc) {
    pc.Own? && (pc.step.P2Creating? || pc.step.P3Want? || pc.step.P3Inside?)
  }

  /** Unless a stop came in between, the watchdog is armed. */
  predicate Armed(s: State, since: Since) {
    since.stops <= s.stops && (since.stops == s.stops ==> s.lastGps > 0)
  }

  predicate PcOk(s: State, th: Thread) {
    && (StartPc(th.pc) ==> s.booted && th.since.starts <= s.liveStarts && th.since.nulls <= s.nullAttempts)
    && (StartPc(th.pc) || th.pc.Own? ==> th.since.stops <= s.stops)
    && (StopPc(th.pc) || WatchdogPc(th.pc) ==> s.booted)
    && match th.pc
       case StDispatching(h) => s.handle == Some(h)
       case StUnlocking(h) => s.handle == Some(h) && h in s.configured
       case StSampling(h) => h in s.configured && (h in s.live || Served(s, th.since))
       case StStoring(h, now) => 0 < now <= s.clock && h in s.configured && (h in s.live || Served(s, th.since))
       case StStarting(h) => h in s.configured && Armed(s, th.since) && (h in s.live || Served(s, th.since))
       case StInStart => Armed(s, th.since) && Served(s, th.since)
       case StReturned => Served(s, th.since)
       case StExchange => s.owner.None? || s.liveStarts > th.since.starts || OwnerPending(s)
       case SpStopping => s.handle.Some?
       case WdLoaded(last) => last <= s.clock
       case Own(role, step) =>
         && (role == Boot <==> !s.booted)
         && (match step
             case P4Dispatching => s.handle.Some?
             case Registered => s.handle.Some? ==> s.handle.value in s.configured
             case Reading => role != Boot && (s.handle.Some? ==> s.handle.value in s.configured)
             case Got(h) => role != Boot && h == s.handle && (h.Some? ==> h.value in s.configured)
             case Dispatching(h) => role != Boot && s.handle == Some(h) && h in s.configured
             case Sampling(h) => role != Boot && s.handle == Some(h) && h in s.configured
             case Storing(h, now) => role != Boot && s.handle == Some(h) && h in s.configured && 0 < now <= s.clock
             case Starting(h) => role != Boot && s.handle == Some(h) && h in s.configured && Armed(s, th.since)
             case InStart(h) => role != Boot && s.handle == Some(h) && Armed(s, th.since)
             case Releasing(gotNull) =>
               role != Boot && (gotNull <==> s.handle.None?) && (!gotNull ==> Armed(s, th.since))
             case _ => true)
       case _ => true
  }

  /** The locks and the flag name a thread exactly while it is between taking and releasing them. */
  predicate Holds(s: State, t: Tid, th: Thread) {
    && s.readers[t] == Shares(th)
    && (s.writer == Some(t) <==> Excludes(th.pc))
    && Emissions(th.stack) == Count(s.emitter == Some(t))
    && (s.owner == Some(t) <==> OwnsFlag(th.pc))
    && StackOk(th, s.clock)
  }

  predicate Local(s: State, t: Tid, th: Thread) {
    Holds(s, t, th) && PcOk(s, th)
  }

  predicate Handles(s: State) {
    var pc := if s.owner.Some? && s.owner.value in s.threads then s.threads[s.owner.value].pc else Finished;
    && s.live == ExpectedLive(s.handle, pc)
    && s.handle == (if NothingInstalled(pc) then None else s.latest)
    && (pc.Own? && pc.step.P3Want? ==> pc.step.made == s.latest)
    && (pc.Own? && pc.step.P3Inside? ==> pc.step.made == s.latest)
    && s.created == s.deleted + |s.live|
    && (forall h :: h in s.live ==> h < s.created)
  }

  /** The flag, the constructor and the clock. */
  predicate Scalars(s: State) {
    && (s.active <==> s.booted && s.owner.Some?)
    && (!s.booted ==> s.owner.Some?)
    && s.lastGps <= s.clock < UINT64 && 0 < s.clock
  }

  predicate Known(s: State) {
    && (s.writer.Some? ==> s.writer.value in s.threads && s.readers == multiset{})
    && (s.emitter.Some? ==> s.emitter.value in s.threads)
    && (s.owner.Some? ==> s.owner.value in s.threads)
    && (forall t :: t in s.readers ==> t in s.threads)
    && (forall t :: t in s.threads ==> t < s.nextTid)
  }

  predicate Shared(s: State) {
    Known(s) && Scalars(s) && Handles(s)
  }

  predicate Inv(s: State) {
    && Shared(s)
    && (forall t :: t in s.threads ==> Local(s, t, s.threads[t]))
  }

  /** Configuration is not lost, and only a stop disarms the watchdog. */
  predicate Onward(s: State, s': State) {
    && s.configured <= s'.configured && s.stops <= s'.stops
    && (s'.stops == s.stops && s.lastGps > 0 ==> s'.lastGps > 0)
  }

  /** A step of thread t leaves the locks and program counters of the others alone. */
  predicate KeepsOthers(s: State, s': State, t: Tid) {
    && (forall u :: u in s.threads && u != t ==> u in s'.threads && s'.threads[u] == s.threads[u])
    && (forall u :: u != t && u in s.threads ==> s'.readers[u] == s.readers[u])
    && (s'.writer == s.writer || (s.writer.None? && s'.writer == Some(t)) || (s.writer == Some(t) && s'.writer.None?))
    && (s'.emitter == s.emitter || (s.emitter.None? && s'.emitter == Some(t))
        || (s.emitter == Some(t) && s'.emitter.None?))
    && (s'.owner == s.owner || (s.owner.None? && s'.owner == Some(t)) || (s.owner == Some(t) && s'.owner.None?)
        || (s.owner == Some(t) && s'.owner == Some(s.nextTid)))
    && s.clock <= s'.clock
    && (s'.booted == s.booted || (s.owner == Some(t) && s'.booted))
    && Onward(s, s')
  }

  /** It changes the handle only as owner and writer, and loses no call that waits for the owner. */
  predicate KeepsPromises(s: State, s': State, t: Tid) {
    && (s'.handle == s.handle || (s.owner == Some(t) && s.writer == Some(t)))
    && s.liveStarts <= s'.liveStarts && s.nullAttempts <= s'.nullAttempts
    && (s.booted && OwnerPending(s) ==>
        OwnerPending(s') || s'.liveStarts > s.liveStarts || (s'.nullAttempts > s.nullAttempts && s'.owner.None?))
    && (s.booted && s'.live != s.live ==> s.live <= s'.live || OwnerPending(s'))
    && (s.booted && s.owner.None? ==> s'.owner.None? || OwnerPending(s'))
  }

  predicate Respects(s: State, s': State, t: Tid) {
    KeepsOthers(s, s', t) && KeepsPromises(s, s', t)
  }

  lemma ServedStays(s: State, s': State, t: Tid, since: Since)
    requires Respects(s, s', t) && s.booted
    requires since.starts <= s.liveStarts && since.nulls <= s.nullAttempts
    ensures Served(s, since) ==> Served(s', since)
  {
  }

  lemma OtherKeepsPc(s: State, s': State, t: Tid, u: Tid)
    requires Inv(s) && Respects(s, s', t)
    requires u in s.threads && u != t
    ensures PcOk(s', s.threads[u])
  {
    var th := s.threads[u];
    assert Local(s, u, th);
    if StartPc(th.pc) {
      ServedStays(s, s', t, th.since);
    }
    if s'.handle != s.handle {
      assert s.readers == multiset{};
      assert s.readers[u] == 0;
    }
  }

  lemma OthersKeep(s: State, s': State, t: Tid)
    requires Inv(s) && Respects(s, s', t)
    ensures forall u :: u in s.threads && u != t ==> Local(s', u, s'.threads[u])
  {
    forall u | u in s.threads && u != t
      ensures Local(s', u, s'.threads[u])
    {
      OtherKeepsPc(s, s', t, u);
      assert Local(s, u, s.threads[u]);
    }
  }

  /** A step that leaves the owner, the handle and the exclusive lock alone. */
  predicate Quiet(s: State, s': State, t: Tid) {
    && t in s.threads && t in s'.threads
    && s'.threads == s.threads[t := s'.threads[t]]
    && s' == s.(threads := s'.threads, readers := s'.readers, emitter := s'.emitter,
                lastGps := s'.lastGps, liveStarts := s'.liveStarts,
                configured := s'.configured, stops := s'.stops, liveStops := s'.liveStops)
    && Onward(s, s')
    && (s'.readers == s.readers || s'.readers == s.readers - multiset{t}
        || (s.writer.None? && s'.readers == s.readers + multiset{t}))
    && (s'.emitter == s.emitter || (s.emitter.None? && s'.emitter == Some(t))
        || (s.emitter == Some(t) && s'.emitter.None?))
    && s'.lastGps <= s.clock
    && s.liveStarts <= s'.liveStarts
    && (s.owner == Some(t) ==> s'.threads[t].pc == s.threads[t].pc)
  }

  lemma QuietRespects(s: State, s': State, t: Tid)
    requires Inv(s) && Quiet(s, s', t)
    ensures Respects(s, s', t)
  {
    if OwnerPending(s) {
      assert s'.threads[s'.owner.value].pc == s.threads[s.owner.value].pc;
    }
  }

  lemma QuietShared(s: State, s': State, t: Tid)
    requires Shared(s) && Quiet(s, s', t)
    ensures Shared(s')
  {
    if s.owner.Some? {
      assert s'.threads[s'.owner.value].pc == s.threads[s.owner.value].pc;
    }
  }

  lemma QuietKeeps(s: State, s': State, t: Tid)
    requires Inv(s) && Quiet(s, s', t)
    requires Local(s', t, s'.threads[t])
    ensures Inv(s')
  {
    QuietRespects(s, s', t);
    OthersKeep(s, s', t);
    QuietShared(s, s', t);
  }

  lemma SamePcOk(s: State, s': State, t: Tid)
    requires Inv(s) && Quiet(s, s', t)
    requires s'.threads[t].pc == s.threads[t].pc && s'.threads[t].since == s.threads[t].since
    ensures PcOk(s', s'.threads[t])
  {
    QuietRespects(s, s', t);
    assert Local(s, t, s.threads[t]);
    if StartPc(s.threads[t].pc) {
      ServedStays(s, s', t, s.threads[t].since);
    }
  }

  /** The part of the invariant a step needs about the state as a whole. */
  predicate Brief(s: State) {
    && (s.writer.Some? ==> s.readers == multiset{})
    && Scalars(s)
  }

  /** What a step of the owner does to the locks and the thread table. */
  predicate OwnerFrame(s: State, s': State, t: Tid) {
    && t in s.threads && t in s'.threads
    && s'.threads == s.threads[t := s'.threads[t]]
    && s'.nextTid == s.nextTid && s'.emitter == s.emitter
    && (s'.readers == s.readers
        || (s'.writer.None? && (s'.readers == s.readers + multiset{t} || s'.readers == s.readers - multiset{t})))
    && (s'.writer.None? || s'.writer == s.writer || (s'.writer == Some(t) && s'.readers == multiset{}))
    && s.owner == Some(t) && (s'.owner.None? || s'.owner == Some(t))
    && (s'.writer == s.writer || s.writer.None? || s.writer == Some(t))
    && s'.clock == s.clock && (s.booted ==> s'.booted)
    && Onward(s, s')
  }

  lemma OwnerFrameKnown(s: State, s': State, t: Tid)
    requires Known(s) && OwnerFrame(s, s', t)
    ensures Known(s') && KeepsOthers(s, s', t)
  {
  }
}
