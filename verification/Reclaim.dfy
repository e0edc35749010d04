/** The Android GPS reclaim protocol as a transition system.

    Every thread has a program counter and a stack of HAL callbacks running on it.
    One action is one atomic step: taking or releasing a lock, one access to a shared
    variable, or the beginning or end of one HAL call. The HAL is the environment:
    it may call back on its own threads at any time and synchronously inside every
    HAL call made without the exclusive lock, the one the engine makes while a position is being
    emitted included, and u_hardware_gps_new may yield null. */
module Reclaim {
  import opened Prelude

  type Tid = nat
  type Handle = nat

  const STALE_AFTER_MS: nat := 10000
  const UINT64: nat := 0x1_0000_0000_0000_0000

  /** Who runs register_callbacks(). */
  datatype Role = Boot | Recovery | Watchdog

  /** What a HAL callback does once it holds callback_mutex shared: only update a field,
      emit a location or the satellites to the engine, or call back into the HAL with the current handle. */
  datatype CallbackKind = Plain | Location | Satellites | Inject

  predicate IsData(kind: CallbackKind) { kind.Location? || kind.Satellites? }

  /** Program counter of one callback activation. */
  datatype Frame =
    | CbWant(kind: CallbackKind)      // requests callback_mutex shared
    | CbInside(kind: CallbackKind)
    | CbStoring(kind: CallbackKind, now: nat)   // now_ms() sampled, last_gps_ms not yet stored
    | CbWantEmit(kind: CallbackKind)  // requests emit_mutex
    | CbEmitting(kind: CallbackKind)  // holds emit_mutex; the engine injects a location into the HAL
    | CbCalling                       // inside u_hardware_gps_inject_*
    | CbLeaving                       // about to release callback_mutex

  datatype Stack = Empty | Push(top: Frame, below: Stack)

  /** Steps of the thread that owns positioning_active (or of the constructor). */
  datatype OwnStep =
    | P1Want | P1Inside | P1Deleting | P1Clearing
    | P2Creating
    | P3Want(made: Option<Handle>) | P3Inside(made: Option<Handle>)
    | P4Checking | P4Dispatching | Registered
    | Reading                                   // holds callback_mutex shared
    | Got(h: Option<Handle>)
    | Dispatching(d: Handle) | Sampling(d: Handle) | Storing(d: Handle, now: nat)
    | Starting(d: Handle) | InStart(d: Handle)
    | Releasing(gotNull: bool)

  datatype Pc =
    | HalThread
    | Own(role: Role, step: OwnStep)
    // start_positioning()
    | StTry | StInside | StDispatching(h: Handle) | StUnlocking(h: Handle)
    | StSampling(h: Handle) | StStoring(h: Handle, now: nat) | StStarting(h: Handle) | StInStart
    | StExchange | StSpawning | StReturned
    // stop_positioning()
    | SpClearing | SpTry | SpInside | SpStopping | SpUnlocking | SpReturned
    // the watchdog between reclaims
    | WdSleeping | WdLoaded(last: nat) | WdWant | WdInside | WdExchange
    | Finished

  /** What had happened when a start_positioning() call, or an attempt to reclaim, began; `nulls` counts from the
      moment the call hands its request over: when it defers to an attempt in flight, begins one of its own, or
      lets go of the lock under which it has read the handle. */
  datatype Since = Since(starts: nat, nulls: nat, stops: nat)

  datatype Thread = Thread(pc: Pc, stack: Stack, since: Since)

  /** The shared fields of Impl, followed by bookkeeping the program does not have:
      who owns the flag, which handles are live or configured, and what has been issued so far. */
  datatype State = State(
    handle: Option<Handle>,
    writer: Option<Tid>,          // exclusive holder of callback_mutex
    readers: multiset<Tid>,       // shared holders of callback_mutex
    emitter: Option<Tid>,         // holder of emit_mutex
    active: bool,                 // positioning_active
    lastGps: nat,                 // last_gps_ms
    clock: nat,                   // steady clock in ms
    booted: bool,                 // the constructor has finished
    owner: Option<Tid>,
    live: set<Handle>,
    created: nat,
    deleted: nat,
    latest: Option<Handle>,       // what the last u_hardware_gps_new returned; None before the first
    configured: set<Handle>,      // handles that were given the position mode
    stops: nat,                   // how often stop_positioning() has disarmed the watchdog
    liveStops: nat,               // HAL stops issued on a handle live at that moment
    liveStarts: nat,              // starts issued on a handle live at that moment
    nullAttempts: nat,            // finished attempts that obtained a null handle
    nextTid: Tid,
    threads: map<Tid, Thread>)

  datatype Entry = StartCall | StopCall | HalCallback
  datatype Env = Proceed | CallBack(kind: CallbackKind) | Fail
  datatype Action = Advance(ms: nat) | Begin(entry: Entry) | Move(t: Tid, env: Env)

  /** The constructor is about to run register_callbacks(). */
  function Init(clock: nat): State {
    State(None, None, multiset{}, None, false, 0, clock, false, Some(0), {}, 0, 0, None, {}, 0, 0, 0, 0, 1,
          map[0 := Thread(Own(Boot, P1Want), Empty, Since(0, 0, 0))])
  }

  /** The calls during which the HAL may call back on the same thread. */
  predicate InHal(pc: Pc) {
    || pc.HalThread? || pc.StDispatching? || pc.StInStart? || pc.SpStopping?
    || (pc.Own? && (pc.step.P2Creating? || pc.step.P4Dispatching? || pc.step.Dispatching? || pc.step.InStart?))
  }

  /** The same for a callback: inside u_hardware_gps_inject_*, called by itself or by the engine. */
  predicate FrameInHal(f: Frame) { f.CbCalling? || f == CbEmitting(Location) }

  function Goto(th: Thread, pc: Pc): Thread { th.(pc := pc) }

  function OwnGoto(th: Thread, role: Role, step: OwnStep): Thread { th.(pc := Own(role, step)) }

  function SetThread(s: State, t: Tid, th: Thread): State {
    s.(threads := s.threads[t := th])
  }

  /** dispatch_updated_modes_to_driver() has configured the installed handle. */
  function Configured(s: State): set<Handle> {
    s.configured + if s.handle.Some? then {s.handle.value} else {}
  }

  /** Thread t takes callback_mutex shared; refused only while a writer holds it. */
  function AcquireShared(s: State, t: Tid, th: Thread): Option<State> {
    if s.writer.Some? then None
    else Some(SetThread(s, t, th).(readers := s.readers + multiset{t}))
  }

  function ReleaseShared(s: State, t: Tid, th: Thread): State {
    SetThread(s, t, th).(readers := s.readers - multiset{t})
  }

  function AcquireExclusive(s: State, t: Tid, th: Thread): Option<State> {
    if s.writer.Some? || s.readers != multiset{} then None
    else Some(SetThread(s, t, th).(writer := Some(t)))
  }

  function ReleaseExclusive(s: State, t: Tid, th: Thread): State {
    SetThread(s, t, th).(writer := None)
  }

  /** One step of the innermost callback running on thread t. */
  function FrameStep(s: State, t: Tid, th: Thread, env: Env): Option<State>
    requires th.stack.Push?
  {
    var below := th.stack.below;
    if env == Fail || (env.CallBack? && !FrameInHal(th.stack.top)) then None
    else if env.CallBack? then Some(SetThread(s, t, th.(stack := Push(CbWant(env.kind), th.stack))))
    else
      match th.stack.top
      case CbWant(kind) => AcquireShared(s, t, th.(stack := Push(CbInside(kind), below)))
      case CbInside(kind) =>
        var frame := match kind
          case Plain => CbLeaving
          case Location => CbStoring(kind, s.clock)
          case Satellites => CbStoring(kind, s.clock)
          case Inject => CbCalling;
        Some(SetThread(s, t, th.(stack := Push(frame, below))))
      case CbStoring(kind, now) =>
        Some(SetThread(s, t, th.(stack := Push(CbWantEmit(kind), below))).(lastGps := now))
      case CbWantEmit(kind) =>
        if s.emitter.Some? then None
        else Some(SetThread(s, t, th.(stack := Push(CbEmitting(kind), below))).(emitter := Some(t)))
      case CbEmitting(_) => Some(SetThread(s, t, th.(stack := Push(CbLeaving, below))).(emitter := None))
      case CbCalling => Some(SetThread(s, t, th.(stack := Push(CbLeaving, below))))
      case CbLeaving => Some(ReleaseShared(s, t, th.(stack := below)))
  }

  /** register_callbacks(). */
  function RegisterStep(s: State, t: Tid, th: Thread, role: Role, env: Env): Option<State>
    requires th.pc.Own?
  {
    match th.pc.step
    case P1Want => AcquireExclusive(s, t, OwnGoto(th, role, P1Inside))
    case P1Inside =>
      (match s.handle
       case Some(h) =>
         Some(SetThread(s, t, OwnGoto(th, role, P1Deleting)).(live := s.live - {h}, deleted := s.deleted + 1))
       case None => Some(SetThread(s, t, OwnGoto(th, role, P1Clearing))))
    case P1Deleting => Some(SetThread(s, t, OwnGoto(th, role, P1Clearing)))
    case P1Clearing => Some(ReleaseExclusive(s, t, OwnGoto(th, role, P2Creating)).(handle := None))
    case P2Creating =>
      if env == Fail then Some(SetThread(s, t, OwnGoto(th, role, P3Want(None))).(latest := None))
      else Some(SetThread(s, t, OwnGoto(th, role, P3Want(Some(s.created)))).(
                live := s.live + {s.created}, created := s.created + 1, latest := Some(s.created)))
    case P3Want(made) => AcquireExclusive(s, t, OwnGoto(th, role, P3Inside(made)))
    case P3Inside(made) => Some(ReleaseExclusive(s, t, OwnGoto(th, role, P4Checking)).(handle := made))
    case P4Checking => Some(SetThread(s, t, OwnGoto(th, role, if s.handle.Some? then P4Dispatching else Registered)))
    case P4Dispatching => Some(SetThread(s, t, OwnGoto(th, role, Registered)).(configured := Configured(s)))
    case _ => None
  }

  /** What the caller of register_callbacks() does with the outcome. */
  function RestartStep(s: State, t: Tid, th: Thread, role: Role): Option<State>
    requires th.pc.Own?
  {
    match th.pc.step
    case Registered =>
      if role == Boot
      // The constructor's last act starts the watchdog, which takes over its slot here.
      then Some(SetThread(s, t, th.(pc := WdSleeping)).(booted := true, owner := None))
      else AcquireShared(s, t, OwnGoto(th, role, Reading))
    case Reading => Some(ReleaseShared(s, t, OwnGoto(th, role, Got(s.handle))))
    case Got(None) => Some(SetThread(s, t, OwnGoto(th, role, Releasing(true))))
    case Got(Some(h)) =>
      Some(SetThread(s, t, OwnGoto(th, role, if role == Watchdog then Dispatching(h) else Sampling(h))))
    case Dispatching(h) => Some(SetThread(s, t, OwnGoto(th, role, Sampling(h))).(configured := Configured(s)))
    case Sampling(h) => Some(SetThread(s, t, OwnGoto(th, role, Storing(h, s.clock))))
    case Storing(h, now) => Some(SetThread(s, t, OwnGoto(th, role, Starting(h))).(lastGps := now))
    case Starting(h) =>
      Some(SetThread(s, t, OwnGoto(th, role, InStart(h))).(liveStarts := s.liveStarts + if h in s.live then 1 else 0))
    case InStart(h) => Some(SetThread(s, t, OwnGoto(th, role, Releasing(false))))
    case Releasing(gotNull) =>
      Some(SetThread(s, t, th.(pc := if role == Watchdog then WdSleeping else Finished)).(
           active := false, owner := None, nullAttempts := s.nullAttempts + if gotNull then 1 else 0))
    case _ => None
  }

  predicate Registering(step: OwnStep) {
    || step.P1Want? || step.P1Inside? || step.P1Deleting? || step.P1Clearing? || step.P2Creating?
    || step.P3Want? || step.P3Inside? || step.P4Checking? || step.P4Dispatching?
  }

  function OwnerStep(s: State, t: Tid, th: Thread, role: Role, env: Env): Option<State>
    requires th.pc.Own?
  {
    if env == Fail && !th.pc.step.P2Creating? then None
    else if Registering(th.pc.step) then RegisterStep(s, t, th, role, env)
    else RestartStep(s, t, th, role)
  }

  /** From here on the request is in the hands of whoever owns the flag or deletes the handle. */
  function HandOver(s: State, th: Thread): Thread { th.(since := th.since.(nulls := s.nullAttempts)) }

  /** start_positioning(). */
  function StartStep(s: State, t: Tid, th: Thread): Option<State> {
    match th.pc
    case StTry => Some(if s.writer.Some? then SetThread(s, t, Goto(HandOver(s, th), StReturned))
                       else SetThread(s, t, Goto(th, StInside)).(readers := s.readers + multiset{t}))
    case StInside =>
      (match s.handle
       case Some(h) => Some(SetThread(s, t, Goto(th, StDispatching(h))))
       case None => Some(ReleaseShared(s, t, Goto(th, StExchange))))
    case StDispatching(h) => Some(SetThread(s, t, Goto(th, StUnlocking(h))).(configured := Configured(s)))
    case StUnlocking(h) => Some(ReleaseShared(s, t, Goto(HandOver(s, th), StSampling(h))))
    case StSampling(h) => Some(SetThread(s, t, Goto(th, StStoring(h, s.clock))))
    case StStoring(h, now) => Some(SetThread(s, t, Goto(th, StStarting(h))).(lastGps := now))
    case StStarting(h) =>
      Some(SetThread(s, t, Goto(th, StInStart)).(liveStarts := s.liveStarts + if h in s.live then 1 else 0))
    case StInStart => Some(SetThread(s, t, Goto(th, StReturned)))
    case StExchange => Some(if s.active then SetThread(s, t, Goto(HandOver(s, th), StReturned))
                            else SetThread(s, t, Goto(HandOver(s, th), StSpawning)).(active := true, owner := Some(t)))
    case StSpawning =>
      Some(SetThread(SetThread(s, t, Goto(th, StReturned)), s.nextTid,
                     Thread(Own(Recovery, P1Want), Empty, Since(0, 0, s.stops))).(
           nextTid := s.nextTid + 1, owner := Some(s.nextTid)))
    case _ => None
  }

  /** stop_positioning(). */
  function StopStep(s: State, t: Tid, th: Thread): Option<State> {
    match th.pc
    case SpClearing => Some(SetThread(s, t, Goto(th, SpTry)).(lastGps := 0, stops := s.stops + 1))
    case SpTry => Some(if s.writer.Some? then SetThread(s, t, Goto(th, SpReturned))
                       else SetThread(s, t, Goto(th, SpInside)).(readers := s.readers + multiset{t}))
    case SpInside =>
      (match s.handle
       case Some(h) =>
         Some(SetThread(s, t, Goto(th, SpStopping)).(liveStops := s.liveStops + if h in s.live then 1 else 0))
       case None => Some(SetThread(s, t, Goto(th, SpUnlocking))))
    case SpStopping => Some(SetThread(s, t, Goto(th, SpUnlocking)))
    case SpUnlocking => Some(ReleaseShared(s, t, Goto(th, SpReturned)))
    case _ => None
  }

  /** uint64_t subtraction. */
  function Elapsed(now: nat, last: nat): nat {
    (now - last) % UINT64
  }

  /** The watchdog loop up to the point where it wins positioning_active. */
  function WatchdogStep(s: State, t: Tid, th: Thread): Option<State> {
    match th.pc
    case WdSleeping => Some(SetThread(s, t, Goto(th, WdLoaded(s.lastGps))))
    case WdLoaded(last) =>
      Some(SetThread(s, t, Goto(th,
        if last == 0 || Elapsed(s.clock, last) <= STALE_AFTER_MS then WdSleeping else WdWant)))
    case WdWant => AcquireShared(s, t, Goto(th, WdInside))
    case WdInside => Some(ReleaseShared(s, t, Goto(th, if s.handle.Some? then WdExchange else WdSleeping)))
    case WdExchange => Some(if s.active then SetThread(s, t, Goto(th, WdSleeping))
                            else SetThread(s, t, Thread(Own(Watchdog, P1Want), th.stack, Since(0, 0, s.stops))).(
                                   active := true, owner := Some(t)))
    case _ => None
  }

  function PcStep(s: State, t: Tid, th: Thread, env: Env): Option<State> {
    if env.CallBack? then
      if InHal(th.pc) then Some(SetThread(s, t, th.(stack := Push(CbWant(env.kind), th.stack)))) else None
    else if th.pc.Own? then OwnerStep(s, t, th, th.pc.role, env)
    else if env == Fail then None
    else
      var start := StartStep(s, t, th);
      if start.Some? then start
      else
        var stop := StopStep(s, t, th);
        if stop.Some? then stop else WatchdogStep(s, t, th)
  }

  function Arrival(s: State, entry: Entry): Thread {
    var pc := match entry
      case StartCall => StTry
      case StopCall => SpClearing
      case HalCallback => HalThread;
    Thread(pc, Empty, Since(s.liveStarts, s.nullAttempts, s.stops))
  }

  /** The effect of one action, or None when it is not possible in s. Calls of the client
      interface need the finished object; HAL threads may exist as soon as callbacks are registered. */
  function Next(s: State, a: Action): Option<State> {
    match a
    case Advance(ms) => if s.clock + ms < UINT64 then Some(s.(clock := s.clock + ms)) else None
    case Begin(entry) =>
      if s.booted || entry == HalCallback
      then Some(SetThread(s, s.nextTid, Arrival(s, entry)).(nextTid := s.nextTid + 1))
      else None
    case Move(t, env) =>
      if t !in s.threads then None
      else if s.threads[t].stack.Push? then FrameStep(s, t, s.threads[t], env)
      else PcStep(s, t, s.threads[t], env)
  }

  /** The state after an action; one that is not possible when its turn comes is skipped. */
  function After(s: State, a: Action): State {
    var r := Next(s, a);
    if r.Some? then r.value else s
  }

  /** Any interleaving. */
  function Exec(s: State, acts: seq<Action>): State
    decreases |acts|
  {
    if acts == [] then s else Exec(After(s, acts[0]), acts[1..])
  }
}
