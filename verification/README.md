# Location service: verified model

This project models the parts of the Lomiri location service whose correctness depends on more than one
function or more than one thread, and proves what they guarantee. It is written in Dafny 4.11;
`dafny verify dfyconfig.toml` checks all of it.

- **GPS reclaim protocol** (`Reclaim*.dfy`, `WatchdogTiming.dfy`). The Android HAL allows one client at a time.
  Client calls, a recovery thread, an endless watchdog and any number of HAL callback threads share a handle, a
  reader/writer lock, a mutex, an atomic flag and an atomic time. `Reclaim.dfy` is a transition system: one program
  counter and one callback stack per thread, one action per atomic step. The HAL may call back inside every call made to it
  without the exclusive lock, the engine's injection during an emission included, and may refuse to create a handle.
  `ReclaimInvariant.dfy` is the invariant, `ReclaimSteps.dfy` and `ReclaimOwner.dfy` show that every action keeps it,
  `ReclaimTheorems.dfy` says what follows: at most one owner and one live handle, every start accounted for, who can wait for
  whom, starts configured and watched. `ReclaimMoves.dfy` measures the work each thread has ahead; `ReclaimProgress.dfy`
  uses it to say exactly when the service can come to rest. `WatchdogTiming.dfy` gives real-time bounds over every
  interleaving, in both directions, and `WatchdogBounds.dfy` shows that one of them is tight. `ReclaimData.dfy`
  and `ReclaimStops.dfy` say what data callbacks and stops do, `WatchdogArrivals.dfy` bounds the watchdog by the arrival of
  data, `ReclaimBooks.dfy` ties the counts used in the statements to the HAL calls. `ReclaimRuns.dfy` reaches
  the states in which the promises end.
- **Reference counting** (`Controller.dfy`, `ControllerRace.dfy`, `Tower.dfy`). `Provider::Controller` as an object over
  runs of requests, one of its counters under concurrent atomic steps with the exact condition under which the instance
  follows it, and four layers of such counters with the engine's feedback: a tracker's count is always the number of running sessions that use it.
- **Time over the wire** (`Endian.dfy`, `EndianReverse.dfy`, `Sntp.dfy`). Byte loops of any width with sign extension,
  the shift-and-mask byte reversal against them, NTP timestamps in such buffers, and the error of the SNTP computation
  (sections 3 and 5 of RFC 4330).
- **Choosing positions** (`UpdatePolicy.dfy`, `Fusion.dfy`). Two one-pass state updates against a description of what
  they hold in terms of the whole history.
- **Data** (`Codec.dfy`, `RadioCell.dfy`, `RadioCellReports.dfy`). The D-Bus codecs over typed token streams, with the satellite map that the engine
  accumulates, and the cached radio cell over the overlapping storage of its union, with a description of the cell by the
  reports alone (`RadioCellReports.dfy`).

Code that works by changing objects is a class here, with methods proved against functions on values; the laws are
lemmas about those functions. The reclaim protocol and the counter race are state machines on values, because their
subject is the interleaving of steps. `Prelude.dfy` and `Types.dfy` hold shared datatypes.

## Where the code and its comments differ

The model follows the code.

- `android_hardware_abstraction_layer.cpp:511-512` says that the thread holding the exclusive lock starts the GPS when it finishes. It does
  so only if `u_hardware_gps_new` returned a handle. `NoStartLost` and `FateOfDeferral` state the exact alternatives.
- `android_hardware_abstraction_layer.cpp:353-373, 601-619` inject into the HAL whatever `gps_handle` holds. Unlike stops and starts they do not look
  whether it is null; `InjectionUsesLiveHandleIff` says when it is not, `CallbackInjectsNull` and `EmissionInjectsNull` reach the failing states.
- `android_hardware_abstraction_layer.cpp:731-734, 745-747` calls the HAL without the exclusive lock so that synchronous callbacks cannot
  deadlock. One call is made with `emit_mutex` held: emitting a position (`:228`) makes the engine assign it (`engine.cpp:207`), which
  hands it to every provider (`engine.cpp:158-164`), and the GPS provider injects it into the HAL (`gps/provider.cpp:106-109`). If
  the HAL reports data from inside that injection, the thread waits for the mutex it holds. `DeadlockFreeIffNeverNests` states
  that this is the only way to deadlock; `NestedCallbackDeadlocks` reaches it.
- `android_hardware_abstraction_layer.cpp:535-536` says that the D-Bus dispatch thread is never blocked. The code of the two client calls waits
  for no lock, but a callback that the HAL makes synchronously on the client's thread may.
  `ClientCallsBlockOnlyInCallbacks` says exactly when.
- `README.md:264-266` of the service says that 10 s of silence always trigger a reclaim. The watchdog compares its stored time at the
  next tick, so the reclaim begins later than 10 s and at most one period later than that
  (`SilentInterleavingsAreReclaimed`), and only if a handle is installed and nobody owns the flag (`PassReclaimsIff`).
  `SilenceUnreclaimed` reaches a calm state in which an armed, stale watchdog does nothing: the HAL refused the handle of
  the last reclaim.
- A start concurrent with a stop: the matching counter in `provider.cpp:52-72` is atomic but the pair of counter and instance call is not.
  The totals agree (`ConcurrentCounting`), the order may not: `StopMayOvertake` gives a schedule that leaves the instance off.
  The order agrees exactly as long as no start overtakes a stop that is decided and not issued (`RightIffNotOvertaken`).
- `provider.cpp:31-36` zeroes live counters. One operation keeps a stream's calls alternating for every operation but
  `enable()`, and for `enable()` exactly when nothing runs (`ApplyKeeps`); a run is right if and only if each of its `enable()`
  is (`AlternationIff`). `EnableWhileRunningRestarts` gives a failing run.
- `sntp_client.h:120` writes the fraction as `msecs * max + 1 / 1000`, in which the second term is 0, and
  `sntp_client.h:128` divides a wrapped 32-bit product by `2^32 - 1`, which always yields 0 (`FractionIsDropped`). Timestamps therefore carry
  whole seconds only; `SntpAccuracy` contains the resulting second. The fraction written is the negative of the milliseconds
  modulo 2^32 (`Written`).
- No report carries an LTE physical id. Switching the cached cell to LTE makes the old strength, even the invalid 99, pass for a valid physical
  id (`SwitchToLteForgesPhysicalId`). After any run an LTE cell's physical id passes for valid if and only if the cell was
  not LTE at some point before (`PhysicalIdValidIffForged`).
- `codec.h:344-353` inserts under the key inside the vehicle, `codec.h:331-342` ignores the map's key. The map codec
  is inverted if and only if every entry is stored under its own key (`MapInverts`); the engine's map always is.

## Model

| member | source | states |
|---|---|---|
| ReclaimOwner.NextKeeps | src/location_service/com/lomiri/location/providers/gps/android_hardware_abstraction_layer.cpp:197-751 | every atomic step of every thread and of the HAL keeps the protocol invariant, loses no configuration, and disarms the watchdog only by a stop |
| ReclaimOwner.ReachableInv | src/location_service/com/lomiri/location/providers/gps/android_hardware_abstraction_layer.cpp:506-751 | the invariant holds in every state of every interleaving, from the constructor on |
| ReclaimTheorems.OneOwner | src/location_service/com/lomiri/location/providers/gps/android_hardware_abstraction_layer.cpp:534-559 | at most one thread is inside register_callbacks() or on the way to restart, and the flag is set while one is |
| ReclaimTheorems.HandleConservation | src/location_service/com/lomiri/location/providers/gps/android_hardware_abstraction_layer.cpp:720-745 | handles created minus deleted is the number of live handles, at most one: exactly the installed one unless it is being deleted, or the one its creator is about to install; so no reclaim orphans a handle |
| ReclaimTheorems.SharedHoldersSeeLiveHandle | src/location_service/com/lomiri/location/providers/gps/android_hardware_abstraction_layer.cpp:153-165 | while any thread holds callback_mutex shared, the handle is null or live and no delete is in progress |
| ReclaimTheorems.CallsUseLiveHandle | src/location_service/com/lomiri/location/providers/gps/android_hardware_abstraction_layer.cpp:544-572 | deletes, mode changes, stops and every start of the flag owner are called on a handle that is not null and live |
| ReclaimTheorems.InjectionUsesLiveHandleIff | src/location_service/com/lomiri/location/providers/gps/android_hardware_abstraction_layer.cpp:353-373 | an injection, by a callback or by the engine during an emission, passes a live handle if and only if one is installed: not between deleting and installing, and the last u_hardware_gps_new returned one |
| ReclaimRuns.CallbackInjectsNull | src/location_service/com/lomiri/location/providers/gps/android_hardware_abstraction_layer.cpp:353-373 | a run in which a callback made by u_hardware_gps_new injects into a null handle |
| ReclaimRuns.EmissionInjectsNull | src/location_service/com/lomiri/location/providers/gps/android_hardware_abstraction_layer.cpp:601-619 | a run in which the engine does, for a location reported by u_hardware_gps_new |
| ReclaimTheorems.StuckOnlyBehindHolder | src/location_service/com/lomiri/location/providers/gps/android_hardware_abstraction_layer.cpp:197-300 | a thread cannot move if and only if it has nothing to do or another holds what it asks for |
| ReclaimTheorems.WriterAsksNothing | src/location_service/com/lomiri/location/providers/gps/android_hardware_abstraction_layer.cpp:720-751 | a thread that holds callback_mutex exclusively runs no callback, asks for no lock and can move |
| ReclaimTheorems.NoDeadlock | src/location_service/com/lomiri/location/providers/gps/android_hardware_abstraction_layer.cpp:197-300 | while no data callback is nested in an emission of its thread, who obstructs a thread is another thread that can move, or that waits only for the holder of emit_mutex, which can |
| ReclaimProgress.NestedByCallBackOnly | src/location_service/com/lomiri/location/providers/gps/android_hardware_abstraction_layer.cpp:197-300 | a data callback comes to be nested exactly when the HAL reports data on a thread from inside an injection that the thread's emission makes |
| ReclaimProgress.NestedForEver | src/location_service/com/lomiri/location/providers/gps/android_hardware_abstraction_layer.cpp:197-300 | a nested data callback never gets any further, whatever happens |
| ReclaimProgress.ComesToRestIffNobodyNested | src/location_service/com/lomiri/location/providers/gps/android_hardware_abstraction_layer.cpp:197-300 | from a reachable state the threads' own steps can end every call and callback if and only if none is nested; if one is, no actions can |
| ReclaimProgress.DeadlockFreeIffNeverNests | src/location_service/com/lomiri/location/providers/gps/android_hardware_abstraction_layer.cpp:506-751 | a run from the constructor on can come to rest again if and only if the HAL never nested a data callback in it |
| ReclaimMoves.ProceedLowers | src/location_service/com/lomiri/location/providers/gps/android_hardware_abstraction_layer.cpp:506-751 | every own step of a thread that is not at rest brings the whole service closer to rest, the spawning of the recovery thread included |
| ReclaimRuns.NestedCallbackDeadlocks | src/location_service/com/lomiri/location/providers/gps/android_hardware_abstraction_layer.cpp:197-300 | a run of the started service into that deadlock |
| ReclaimTheorems.ClientCallsBlockOnlyInCallbacks | src/location_service/com/lomiri/location/providers/gps/android_hardware_abstraction_layer.cpp:506-572 | a start_positioning() or stop_positioning() under way waits if and only if a callback on its thread does: for a taken emit_mutex, or inside u_hardware_gps_start() for callback_mutex during an exclusive phase |
| ReclaimRuns.ClientWaitsForEmission | src/location_service/com/lomiri/location/providers/gps/android_hardware_abstraction_layer.cpp:514-529 | a run in which start_positioning() waits for another thread's emission |
| ReclaimRuns.ClientWaitsForReclaim | src/location_service/com/lomiri/location/providers/gps/android_hardware_abstraction_layer.cpp:528-529 | a run in which start_positioning() waits for a reclaim |
| ReclaimTheorems.EmissionsAreSerialized | src/location_service/com/lomiri/location/providers/gps/android_hardware_abstraction_layer.cpp:197-300 | at most one callback hands data to the engine, and none while an exclusive phase runs |
| ReclaimTheorems.NoStartLost | src/location_service/com/lomiri/location/providers/gps/android_hardware_abstraction_layer.cpp:506-562 | once start_positioning() has returned, ever after: a start on a then-live handle was issued since the call began, or the flag owner has its start or its null outcome ahead, or an attempt that ended after the call had handed its request over had got a null handle; with the flag clear, the first or the last |
| ReclaimTheorems.DeferralMeetsAttempt | src/location_service/com/lomiri/location/providers/gps/android_hardware_abstraction_layer.cpp:514-542 | a call that returns by deferring, at the try-lock or the exchange, meets an attempt with its outcome ahead, or a start was issued since it began; null outcomes count from that moment |
| ReclaimTheorems.AttemptEndsDecided | src/location_service/com/lomiri/location/providers/gps/android_hardware_abstraction_layer.cpp:534-559 | under every action an attempt in flight stays so until its start is issued on a live handle or it ends with a null one |
| ReclaimTheorems.FateOfDeferral | src/location_service/com/lomiri/location/providers/gps/android_hardware_abstraction_layer.cpp:514-542 | in every interleaving after a deferral the attempt deferred to stays in flight until a start is issued on a live handle or it ends with a null one |
| ReclaimTheorems.StartAheadIsKept | src/location_service/com/lomiri/location/providers/gps/android_hardware_abstraction_layer.cpp:544-558 | a start that is ahead stays ahead under every action of every thread until its owner issues it on a live handle or the HAL refuses a handle |
| ReclaimTheorems.StartsAreConfigured | src/location_service/com/lomiri/location/providers/gps/android_hardware_abstraction_layer.cpp:748-751 | every start, the fast path's included, is issued on a handle that was given the position mode |
| ReclaimTheorems.StartsAreWatched | src/location_service/com/lomiri/location/providers/gps/android_hardware_abstraction_layer.cpp:524-556 | when a start is issued the watchdog is armed, unless a stop came since the call or attempt began |
| ReclaimTheorems.OnlyStopsDisarm | src/location_service/com/lomiri/location/providers/gps/android_hardware_abstraction_layer.cpp:564-572 | no action but a stop disarms the watchdog |
| ReclaimStops.StopClears | src/location_service/com/lomiri/location/providers/gps/android_hardware_abstraction_layer.cpp:567 | the first step of a stop clears the stored time |
| ReclaimStops.StopDisarms | src/location_service/com/lomiri/location/providers/gps/android_hardware_abstraction_layer.cpp:564-571 | from then on, in every interleaving, the stored time is 0 and a sleeping watchdog never leaves its loop until a data callback or a start stores a sample |
| ReclaimStops.NoStopIsLost | src/location_service/com/lomiri/location/providers/gps/android_hardware_abstraction_layer.cpp:564-572 | in every interleaving a stop_positioning() that has returned issued a stop on a live handle, or its try-lock met a writer, or it saw a null handle |
| ReclaimStops.StopsAreOnLiveHandles | src/location_service/com/lomiri/location/providers/gps/android_hardware_abstraction_layer.cpp:568-571 | a stop that gets the lock calls the HAL if and only if a handle is installed, and then that handle is live |
| ReclaimBooks.BooksAreRight | src/location_service/com/lomiri/location/providers/gps/android_hardware_abstraction_layer.cpp:506-717 | in every step of every thread a start or HAL stop is counted exactly when a thread enters that HAL call with a live handle; null attempts and disarming stops likewise; nothing else counts |
| ReclaimBooks.RestartsPushModes | src/location_service/com/lomiri/location/providers/gps/android_hardware_abstraction_layer.cpp:703-714 | in every interleaving the watchdog gives the driver the modes once more between reading the new handle and starting it |
| ReclaimBooks.PlainOnlyUpdates | src/location_service/com/lomiri/location/providers/gps/android_hardware_abstraction_layer.cpp:248-254 | a callback without data touches neither the stored time nor emit_mutex |
| ReclaimData.DataIsStoredAndEmitted | src/location_service/com/lomiri/location/providers/gps/android_hardware_abstraction_layer.cpp:197-300 | in every interleaving, for locations and satellites alike: a data callback has stored a sample of the clock taken under its lock when it asks for emit_mutex, and has held emit_mutex when it is over |
| ReclaimData.MoveWaits | src/location_service/com/lomiri/location/providers/gps/android_hardware_abstraction_layer.cpp:204-211 | a thread is on its way to a store exactly from the arrival of data or a start's sample to the store, and every sample is of the clock at that moment |
| ReclaimTheorems.WatchdogNeverUnderflows | src/location_service/com/lomiri/location/providers/gps/android_hardware_abstraction_layer.cpp:675-681 | the 64-bit difference of clock and loaded time never wraps, because the time is loaded first |
| WatchdogTiming.PassReclaimsIff | src/location_service/com/lomiri/location/providers/gps/android_hardware_abstraction_layer.cpp:675-703 | an undisturbed pass of the loop over a time more than 10 s old enters register_callbacks() as owner of the flag if and only if a handle is installed and the flag free; a pass over a fresh time changes nothing |
| WatchdogTiming.StaleMeans | src/location_service/com/lomiri/location/providers/gps/android_hardware_abstraction_layer.cpp:677-681 | stale means armed and more than 10 s old, without wrap-around |
| WatchdogTiming.SteadyInterleavingsNeverReclaim | src/location_service/com/lomiri/location/providers/gps/android_hardware_abstraction_layer.cpp:675-681 | in every interleaving: while data callbacks and starts store their samples of the clock at most `gap` apart, each within `delay`, and the two reads of a pass are at most `pass` apart, gap + delay + pass <= 10 s, the watchdog never leaves its loop |
| WatchdogArrivals.SteadyArrivalsNeverReclaim | src/location_service/com/lomiri/location/providers/gps/android_hardware_abstraction_layer.cpp:197-300 | the same over arrivals: while data callbacks of either kind begin, or starts sample the clock, at most `gap` apart, each through with its store within `delay`, gap + 2 * delay + pass <= 10 s, the watchdog never leaves its loop |
| WatchdogBounds.SteadyRunMayReclaim | src/location_service/com/lomiri/location/providers/gps/android_hardware_abstraction_layer.cpp:675-703 | the bound cannot be improved: beyond it, a run within the bounds, with data arriving throughout and no stop, ends with a reclaim |
| WatchdogBounds.SteadyBoundIsExact | src/location_service/com/lomiri/location/providers/gps/android_hardware_abstraction_layer.cpp:675-703 | for gap > 0: all steady runs stay in the loop if and only if gap + delay + pass <= 10 s |
| WatchdogTiming.SilentInterleavingsAreReclaimed | src/location_service/com/lomiri/location/providers/gps/android_hardware_abstraction_layer.cpp:675-703 | in every interleaving: silence since time a, with a handle installed, the flag free and passes at most `period` apart, makes the watchdog enter register_callbacks() as owner of the flag inside (a + 10000, a + 10000 + period] ms |
| WatchdogTiming.SilenceMayLast | src/location_service/com/lomiri/location/providers/gps/android_hardware_abstraction_layer.cpp:683-691 | in every interleaving: while no handle is installed, or while the flag is taken, the watchdog reclaims nothing |
| ReclaimRuns.SilenceUnreclaimed | src/location_service/com/lomiri/location/providers/gps/android_hardware_abstraction_layer.cpp:683-717 | a run into a calm state in which an armed and stale watchdog reclaims nothing as long as no handle is installed |
| Controller.Controller.Enable | src/location_service/com/lomiri/location/provider.cpp:31-36 | new counters and calls are those of the specification step |
| Controller.Controller.Disable | src/location_service/com/lomiri/location/provider.cpp:38-50 | the same, with the stop calls in stream order before the sentinels are set |
| Controller.Controller.StartPositionUpdates | src/location_service/com/lomiri/location/provider.cpp:52-61 | the same: refused by the sentinel, else counted, the instance called on the first |
| Controller.Controller.StopPositionUpdates | src/location_service/com/lomiri/location/provider.cpp:63-72 | the same: the instance called on the last |
| Controller.Controller.StartHeadingUpdates | src/location_service/com/lomiri/location/provider.cpp:79-88 | the same for headings |
| Controller.Controller.StopHeadingUpdates | src/location_service/com/lomiri/location/provider.cpp:90-99 | the same for headings |
| Controller.Controller.StartVelocityUpdates | src/location_service/com/lomiri/location/provider.cpp:106-115 | the same for velocities |
| Controller.Controller.StopVelocityUpdates | src/location_service/com/lomiri/location/provider.cpp:117-126 | the same for velocities |
| Controller.ApplyKeeps | src/location_service/com/lomiri/location/provider.cpp:31-126 | every operation keeps alternation, the meaning of the counters and their bound; enable() does if and only if nothing runs |
| Controller.AlternationIff | src/location_service/com/lomiri/location/provider.cpp:31-126 | a run leaves each stream's calls on the instance alternating start, stop, the stream running iff its counter is positive and counters at least -1, if and only if every enable() of the run came when nothing ran |
| Controller.CounterCounts | src/location_service/com/lomiri/location/provider.cpp:52-72 | over requests alone the counter is its first value plus starts minus stops, until a stop too many leaves the sentinel for good |
| Controller.CountsSinceReset | src/location_service/com/lomiri/location/provider.cpp:31-126 | in any run the last enable() or disable() and the requests after it determine every counter |
| Controller.RunsWhileHeld | src/location_service/com/lomiri/location/provider.cpp:52-72 | on a fresh controller the instance delivers a stream exactly while its starts exceed its stops |
| Controller.DisableSilences | src/location_service/com/lomiri/location/provider.cpp:38-72 | from disable() to the next enable() nothing reaches the instance |
| Controller.SilentWhileDisabled | src/location_service/com/lomiri/location/provider.cpp:52-126 | with every counter at the sentinel nothing reaches the instance |
| Controller.UnmatchedStopDeafens | src/location_service/com/lomiri/location/provider.cpp:63-72 | a stop that matches no start silences the stream until enable() |
| Controller.DisableStopsAll | src/location_service/com/lomiri/location/provider.cpp:38-50 | disable() stops exactly the running streams, once each |
| Controller.EnableWhileRunningRestarts | src/location_service/com/lomiri/location/provider.cpp:31-36 | a run with enable() while a stream runs, in which the instance is started twice in a row |
| ControllerRace.ConcurrentCounting | src/location_service/com/lomiri/location/provider.cpp:52-72 | for every interleaving of matched starts and stops, instance starts minus stops, issued or pending, is 1 if the counter is positive, else 0; the counter is the number of holders |
| ControllerRace.QuiescentCounting | src/location_service/com/lomiri/location/provider.cpp:52-72 | with nothing pending, issued starts exceed issued stops by one exactly while somebody holds the stream |
| ControllerRace.OrderlyRunsAgree | src/location_service/com/lomiri/location/provider.cpp:52-72 | over every interleaving in which no start overtakes an unissued stop: with nothing pending the instance is on iff somebody holds the stream |
| ControllerRace.OvertakenEndsWrong | src/location_service/com/lomiri/location/provider.cpp:52-72 | once a start has overtaken a stop, some order of issuing the pending calls leaves the instance off while held |
| ControllerRace.RightIffNotOvertaken | src/location_service/com/lomiri/location/provider.cpp:52-72 | the exact condition: after an orderly run and one more step, every way to issue the pending calls ends right if and only if the step was no overtaking |
| ControllerRace.StopMayOvertake | src/location_service/com/lomiri/location/provider.cpp:52-72 | an interleaving after which a thread holds the stream and the instance is off |
| Tower.Engine.SetStatus | src/location_service/com/lomiri/location/engine.cpp:74-94 | assigning the engine state; a change to `on` zeroes every tracker's counter, nothing else changes them |
| Tower.Engine.OnTrackerStateChanged | src/location_service/com/lomiri/location/engine.cpp:210-219 | the status becomes `active` iff some tracker is; the feedback's enable() changes no counter, since inactive trackers are uncounted |
| Tower.Engine.StartTracker | src/location_service/com/lomiri/location/state_tracking_provider.h:117-121 | the tracker is counted once more, active, its leaf held once; trackers and engine status agree again |
| Tower.Engine.StopTracker | src/location_service/com/lomiri/location/state_tracking_provider.h:123-127 | the converse; a stop without a start leaves only the sentinel |
| Tower.Engine.StartLeaf | src/location_service/com/lomiri/location/provider.cpp:52-61 | the wrapped controller's start |
| Tower.Engine.StopLeaf | src/location_service/com/lomiri/location/provider.cpp:63-72 | the wrapped controller's stop |
| Tower.Engine.StartBag | src/location_service/com/lomiri/location/fusion_provider.cpp:109-113 | every tracker of the bag is counted exactly once more, the others are untouched, through all feedback in between |
| Tower.Engine.StopBag | src/location_service/com/lomiri/location/fusion_provider.cpp:115-119 | every tracker of the bag is counted exactly once less, the others are untouched |
| Tower.Engine.StartSession | src/location_service/com/lomiri/location/proxy_provider.cpp:53-56 | the whole new state after a client's start; conservation is kept |
| Tower.Engine.StopSession | src/location_service/com/lomiri/location/proxy_provider.cpp:58-61 | the whole new state after a client's stop, matched or not; conservation is kept |
| Tower.Engine.AddProvider | src/location_service/com/lomiri/location/engine.cpp:142-223 | a new tracker at rest; conservation is kept |
| Tower.Engine.OpenSession | src/location_service/com/lomiri/location/fusion_provider_selection_policy.cpp:7-26 | a new idle session over a set of trackers; conservation is kept |
| Tower.RunConserves | src/location_service/com/lomiri/location/proxy_provider.cpp:53-61 | conservation holds throughout every run, for any number of sessions and providers |
| Tower.TowerConservation | src/location_service/com/lomiri/location/engine.cpp:210-219 | in every state of every run a tracker's counter is the number of running sessions whose bag contains it; the leaf is on iff that is positive; the engine is active iff some tracker is |
| Tower.SessionCounts | src/location_service/com/lomiri/location/provider.cpp:52-72 | over every run a session's count is its client's starts minus stops, until a stop too many disables it |
| Tower.StopUndoesStart | src/location_service/com/lomiri/location/fusion_provider.cpp:109-119 | a start followed by its stop restores the whole tower |
| Endian.StoreBigInto | 3rd-party/boost/endian/buffers.hpp:229-233 | the in-place loop leaves the specified big-endian bytes and touches no other byte |
| Endian.StoreLittleInto | 3rd-party/boost/endian/buffers.hpp:234-238 | the in-place loop leaves the specified little-endian bytes and touches no other byte |
| Endian.BigBuffer.Assign | 3rd-party/boost/endian/buffers.hpp:358-366 | the buffer holds the value's big-endian bytes |
| Endian.BigRoundTrip | 3rd-party/boost/endian/buffers.hpp:218-274 | at any width n, load after store is the value reduced to n bytes and sign-extended from the top one |
| Endian.BigRoundTripExact | 3rd-party/boost/endian/buffers.hpp:218-274 | load after store is the value itself if and only if it fits n bytes |
| Endian.ReduceMeans | 3rd-party/boost/endian/buffers.hpp:255-266 | reducing keeps the value modulo 256^n and lands in the range of n bytes, symmetric for signed types |
| Endian.LittleRoundTrip | 3rd-party/boost/endian/buffers.hpp:226-237 | the same two laws for little-endian |
| Endian.StoreUndoesLoad | 3rd-party/boost/endian/buffers.hpp:218-274 | store after load gives the bytes back, so contents and values correspond one to one |
| Endian.LayoutsMirror | 3rd-party/boost/endian/buffers.hpp:229-238 | the two stored layouts are byte reversals of each other |
| Endian.LoadsMirror | 3rd-party/boost/endian/buffers.hpp:224-227 | reading little-endian is reading the reversed bytes big-endian |
| Endian.Horner | 3rd-party/boost/endian/buffers.hpp:226-227 | a load is the positional value of the bytes, with no loss in the casts |
| EndianReverse.ReversalIsByteReversal32 | 3rd-party/boost/endian/conversion.hpp:254-265 | shift-and-mask reversal reverses the bytes in memory (32 bits) |
| EndianReverse.ReversalIsByteReversal64 | 3rd-party/boost/endian/conversion.hpp:267-279 | the same for 64 bits |
| EndianReverse.ReversalIsInvolution32 | 3rd-party/boost/endian/conversion.hpp:254-265 | reversing twice is the identity (32 bits) |
| EndianReverse.ReversalIsInvolution64 | 3rd-party/boost/endian/conversion.hpp:267-279 | reversing twice is the identity (64 bits) |
| EndianReverse.AlignedIsUnaligned32 | 3rd-party/boost/endian/buffers.hpp:420-461 | on a little-endian host the aligned big-endian buffer holds the same bytes and gives the same value as the unaligned one (32 bits) |
| EndianReverse.AlignedIsUnaligned64 | 3rd-party/boost/endian/buffers.hpp:420-461 | the same for 64 bits |
| Sntp.Timestamp.FromMillisecondsSinceEpoch | src/location_service/com/lomiri/location/providers/gps/sntp_client.h:109-121 | both buffers read back the seconds since 1900 and the fraction, each cut to 32 bits |
| Sntp.Timestamp.ToMillisecondsSinceEpoch | src/location_service/com/lomiri/location/providers/gps/sntp_client.h:125-129 | the result is the whole seconds since 1970, whatever the fraction |
| Sntp.FractionIsDropped | src/location_service/com/lomiri/location/providers/gps/sntp_client.h:128 | no fraction ever yields a millisecond |
| Sntp.OffsetIsEpochGap | src/location_service/com/lomiri/location/providers/gps/sntp_client.cpp:59-64 | the offset is the Gregorian calendar's number of seconds from 1900 to 1970, 2208988800 |
| Sntp.Written | src/location_service/com/lomiri/location/providers/gps/sntp_client.h:109-121 | the seconds count from 1900; the fraction written is the 32-bit negative of the milliseconds, 0 on whole seconds |
| Sntp.ReadBackKeepsSecond | src/location_service/com/lomiri/location/providers/gps/sntp_client.h:109-129 | writing then reading any instant keeps its whole second if and only if that second is in the 32-bit era; otherwise it is off by whole eras |
| Sntp.ReadBackInEra | src/location_service/com/lomiri/location/providers/gps/sntp_client.h:109-129 | from 1970 to the 2036 wrap: less than a second early, never late, order-preserving, exact on whole seconds only |
| Sntp.ClientStamps | src/location_service/com/lomiri/location/providers/gps/sntp_client.cpp:180-185 | what the client writes satisfies the condition put on stamps below |
| Sntp.SntpAccuracy | src/location_service/com/lomiri/location/providers/gps/sntp_client.cpp:149-177 | the returned time differs from the server's by less than (d1 + d2) / 2, one second and two milliseconds |
| Sntp.SntpSymmetric | src/location_service/com/lomiri/location/providers/gps/sntp_client.cpp:168-169 | with whole-second stamps the error is half the difference of the delays, up to rounding |
| Sntp.RoundTripAccuracy | src/location_service/com/lomiri/location/providers/gps/sntp_client.cpp:149-168 | the round-trip time is the sum of the two delays and the client's wait before sending, within one second and one millisecond |
| Sntp.ReferenceIsBootClock | src/location_service/com/lomiri/location/providers/gps/sntp_client.cpp:175 | the reference is the boot clock after the exchange in whole milliseconds |
| UpdatePolicy.TimeBasedUpdatePolicy.VerifyUpdate | src/location_service/com/lomiri/location/time_based_update_policy.cpp:40-70 | returns and holds the choice, which is what the whole history determines |
| UpdatePolicy.HeldIsBestSinceJump | src/location_service/com/lomiri/location/time_based_update_policy.cpp:40-70 | over any chronological history the held update is the latest most accurate one since the last jump beyond the limit, or the latest one if none carried an accuracy, and lags the newest by at most the limit |
| UpdatePolicy.HeldNeverGoesBack | src/location_service/com/lomiri/location/update_policy.h:56-66 | the held time stamp never goes back |
| UpdatePolicy.HeldNeverLosesAccuracy | src/location_service/com/lomiri/location/time_based_update_policy.cpp:52-59 | without a jump a known accuracy is never replaced by an unknown or worse one |
| UpdatePolicy.BeyondTheLimit | src/location_service/com/lomiri/location/time_based_update_policy.cpp:44-51 | in any history an update more than the limit older never replaces what is held, one more than the limit newer always does |
| UpdatePolicy.DefaultLag | src/location_service/com/lomiri/location/time_based_update_policy.cpp:28-32 | by default the lag is at most two minutes, and the first update replaces the initial one |
| UpdatePolicy.BestIsUnique | src/location_service/com/lomiri/location/time_based_update_policy.cpp:56-58 | the description of the held update determines it |
| Fusion.FusionProvider.OnPosition | src/location_service/com/lomiri/location/fusion_provider.cpp:46-63 | each report publishes one more update, the one held after the reports so far |
| Fusion.HeldIsUnbeaten | include/location_service/com/lomiri/location/newer_or_more_accurate_update_selector.h:34-59 | the held position was received, took over when it came, and nothing since has beaten it |
| Fusion.UnbeatenIsHeld | include/location_service/com/lomiri/location/newer_or_more_accurate_update_selector.h:34-59 | the converse: such a position is the held one |
| Fusion.Freshness | include/location_service/com/lomiri/location/newer_or_more_accurate_update_selector.h:37-48 | published time stamps never go back and are at most 11 s behind the newest received |
| Fusion.AlwaysTakesOver | include/location_service/com/lomiri/location/newer_or_more_accurate_update_selector.h:40-48 | a position of the same source, or more than 11 s newer, always takes over |
| Fusion.SwitchNeverLosesAccuracy | include/location_service/com/lomiri/location/newer_or_more_accurate_update_selector.h:50-58 | without an 11 s gap a source switch replaces a known accuracy only by a strictly better one |
| Codec.Writer.PutOptionalQuantity | include/location_service/com/lomiri/location/codec.h:114-120 | appends exactly the specified tokens |
| Codec.Writer.PutPosition | include/location_service/com/lomiri/location/codec.h:174-182 | appends exactly the specified tokens |
| Codec.Writer.PutPositionUpdate | include/location_service/com/lomiri/location/codec.h:464-468 | appends exactly the specified tokens |
| Codec.Writer.PutCriteria | include/location_service/com/lomiri/location/codec.h:364-375 | appends exactly the specified tokens |
| Codec.Writer.PutSpaceVehicle | include/location_service/com/lomiri/location/codec.h:274-287 | appends one structure |
| Codec.Writer.PutMap | include/location_service/com/lomiri/location/codec.h:331-342 | appends one array, its vehicles in key order |
| Codec.Reader.TakeOptionalQuantity | include/location_service/com/lomiri/location/codec.h:122-135 | takes what the specification takes from any tokens, or fails with it |
| Codec.Reader.TakePosition | include/location_service/com/lomiri/location/codec.h:184-192 | the same for positions |
| Codec.Reader.TakePositionUpdate | include/location_service/com/lomiri/location/codec.h:470-474 | the same for position updates |
| Codec.Reader.TakeCriteria | include/location_service/com/lomiri/location/codec.h:377-388 | the same for criteria |
| Codec.Reader.TakeSpaceVehicle | include/location_service/com/lomiri/location/codec.h:289-300 | the same for vehicles |
| Codec.Reader.TakeMap | include/location_service/com/lomiri/location/codec.h:344-353 | the same for the map, into one that may already hold entries |
| Codec.OptionalInverts | include/location_service/com/lomiri/location/codec.h:111-136 | decoding an encoded optional followed by any tail gives it back and exactly the tail, for any payload codec that does |
| Codec.UpdateInverts | include/location_service/com/lomiri/location/codec.h:461-475 | the same for updates of any payload |
| Codec.PositionInverts | include/location_service/com/lomiri/location/codec.h:168-193 | the same for positions |
| Codec.PositionUpdateInverts | include/location_service/com/lomiri/location/codec.h:461-475 | the same for position updates |
| Codec.CriteriaInverts | include/location_service/com/lomiri/location/codec.h:356-389 | the same for criteria |
| Codec.PositionDecodesIff | include/location_service/com/lomiri/location/codec.h:168-193 | tokens decode to a position and a tail if and only if they are its encoding followed by that tail |
| Codec.UpdateDecodesIff | include/location_service/com/lomiri/location/codec.h:461-475 | the same for position updates |
| Codec.CriteriaDecodesIff | include/location_service/com/lomiri/location/codec.h:356-389 | the same for criteria |
| Codec.PositionLayout | include/location_service/com/lomiri/location/codec.h:174-182 | which token stands at which place of an encoded position update |
| Codec.CriteriaLayout | include/location_service/com/lomiri/location/codec.h:364-375 | the same for criteria |
| Codec.MapLayout | include/location_service/com/lomiri/location/codec.h:274-287 | one array with one structure per entry in key order, and which token stands at which place of it |
| Codec.SpaceVehicleInverts | include/location_service/com/lomiri/location/codec.h:271-301 | the same for vehicles with their keys |
| Codec.MapInverts | include/location_service/com/lomiri/location/codec.h:328-354 | a map decodes, into an empty one, to itself if and only if every entry is stored under its own key |
| Codec.InsertMeans | include/location_service/com/lomiri/location/codec.h:351 | inserting keeps an entry that is there, else adds the new one and nothing else, in key order |
| Codec.VisibleSpaceVehicles.OnSpaceVehicles | src/location_service/com/lomiri/location/engine.cpp:188-199 | accumulates the reports; every entry stays under its own key, in key order |
| Codec.PutKeeps | src/location_service/com/lomiri/location/engine.cpp:193-196 | one report is in the map afterwards, all other keys keep their entries, order and own keys are kept |
| Codec.AccumulatedIsLatest | src/location_service/com/lomiri/location/engine.cpp:188-199 | the map holds of every satellite what was reported last, and keeps what is not reported again |
| Codec.AccumulatedMapInverts | src/location_service/com/lomiri/location/engine.cpp:188-199 | whatever the engine has accumulated survives encoding and decoding |
| RadioCell.CachedRadioCell.constructor | src/location_service/com/lomiri/location/connectivity/cached_radio_cell.cpp:91-171 | the whole state of a fully constructed cell |
| RadioCell.CachedRadioCell.OnReport | src/location_service/com/lomiri/location/connectivity/cached_radio_cell.cpp:222-499 | the whole new state after any report, and exactly when the handler throws |
| RadioCell.CachedRadioCell.CopyDetails | src/location_service/com/lomiri/location/connectivity/cached_radio_cell.cpp:256-324 | over the shared storage every pair of technologies keeps codes and area and forgets id and strength |
| RadioCell.CachedRadioCell.ExecuteCellChangeHeuristics | src/location_service/com/lomiri/location/connectivity/cached_radio_cell.cpp:501-524 | where the heuristics apply, starts the timer and re-judges the cell, else leaves it alone |
| RadioCell.CachedRadioCell.IsCellDetailsValid | src/location_service/com/lomiri/location/connectivity/cached_radio_cell.cpp:638-684 | true iff all details of the current view are in range |
| RadioCell.CachedRadioCell.SetBounded | include/location_service/com/lomiri/location/connectivity/bounded_integer.h:169-177 | writes the slot iff the value is in range and touches no other |
| RadioCell.FromPercent | include/location_service/com/lomiri/location/connectivity/bounded_integer.h:77-86 | any percentage yields a valid strength |
| RadioCell.CodesAreLastReported | src/location_service/com/lomiri/location/connectivity/cached_radio_cell.cpp:222-499 | after any run of reports the view shows the last in-range country, network and area code reported |
| RadioCell.IdInvalidUntilReported | src/location_service/com/lomiri/location/connectivity/cached_radio_cell.cpp:256-326 | after a technology switch the id is invalid until one is reported, whatever else happens |
| RadioCell.StrengthInvalidUntilReported | src/location_service/com/lomiri/location/connectivity/cached_radio_cell.cpp:256-326 | the same for the strength, across further switches |
| RadioCell.RunKeepsTrust | src/location_service/com/lomiri/location/connectivity/cached_radio_cell.cpp:497-524 | over any run, a UMTS cell marked valid has all details in range when the heuristics are needed |
| RadioCell.ValidMeansInRange | src/location_service/com/lomiri/location/connectivity/cached_radio_cell.cpp:501-524 | the same from construction on |
| RadioCellReports.CellDescribed | src/location_service/com/lomiri/location/connectivity/cached_radio_cell.cpp:91-499 | after any reports from a full construction every field, the mark and the number of changes emitted are determined by the last reports in range, what a switch forgets and the last judgement |
| RadioCellReports.IdDescribed | src/location_service/com/lomiri/location/connectivity/cached_radio_cell.cpp:332-360 | the id is the last in range reported since the last switch |
| RadioCellReports.StrengthDescribed | src/location_service/com/lomiri/location/connectivity/cached_radio_cell.cpp:459-488 | the strength is the last percentage reported since the last switch, capped and scaled to 31 |
| RadioCellReports.StatusDescribed | src/location_service/com/lomiri/location/connectivity/cached_radio_cell.cpp:490-495 | roaming is the last status reported |
| RadioCellReports.PhysicalIdDescribed | src/location_service/com/lomiri/location/connectivity/cached_radio_cell.cpp:256-326 | an LTE cell's physical id is the strength from before the last switch |
| RadioCellReports.MarkDescribed | src/location_service/com/lomiri/location/connectivity/cached_radio_cell.cpp:497-524 | the mark is whether all details were in range at the last identity report to which the heuristics apply, until the timer started there expires |
| RadioCellReports.EmissionsDescribed | src/location_service/com/lomiri/location/connectivity/cached_radio_cell.cpp:328-329 | changed() is emitted exactly at changes of identity or strength while the cell is deemed valid |
| RadioCellReports.RangesDescribed | src/location_service/com/lomiri/location/connectivity/cached_radio_cell.cpp:638-684 | the details are valid if and only if every value reported is in its numeric range |
| RadioCellReports.ThrowsDescribed | include/location_service/com/lomiri/location/connectivity/bounded_integer.h:169-177 | the handler throws exactly for a value out of range and then leaves the cell as it is |
| RadioCell.UncheckedForEver | src/location_service/com/lomiri/location/connectivity/cached_radio_cell.cpp:501-524 | without the heuristics the timer never runs and the mark stays as it is, over any reports |
| RadioCell.UnneededStaysValid | src/location_service/com/lomiri/location/connectivity/cached_radio_cell.cpp:501-524 | so such a cell counts as valid for ever, whatever its details |
| RadioCell.SwitchToLteForgesPhysicalId | include/location_service/com/lomiri/location/connectivity/radio_cell.h:224-229 | after any run, switching to LTE makes the old strength a physical id that passes for valid |
| RadioCell.PhysicalIdValidIffForged | src/location_service/com/lomiri/location/connectivity/cached_radio_cell.cpp:222-326 | after any run from construction, an LTE cell's physical id passes for valid if and only if the cell was not LTE at some point before |
| RadioCell.LteFromTheStartStaysInvalid | src/location_service/com/lomiri/location/connectivity/cached_radio_cell.cpp:676-684 | a cell that has always been LTE never has all its details valid |

## Left out

Reclaim protocol

- The protocol is a transition system on values and not a set of classes, since its subject is interleaving; updates in place are field updates of the state.
- The bodies of the HAL calls, D-Bus, boost::asio, json-c, sockets and logging are not part of this model; HAL calls are steps that return and may call back before they do.
- `u_hardware_gps_delete` is assumed not to call back on its own thread and not to wait for callbacks blocked on callback_mutex.
- `std::shared_mutex`: shared acquisition, also by a thread that already holds it, is assumed possible while a writer waits, and try-lock not to fail spuriously.
- Atomics are sequentially consistent; the relaxed ordering of last_gps_ms is not modelled. The steady clock is above 0 and below 2^64 ms.
- Handles are fresh numbers, so reuse of an address by the HAL is not modelled.
- ReclaimTheorems.CallsUseLiveHandle: does not cover the start of the fast path, which the code issues after unlocking; NoStartLost accounts for it instead.
- WatchdogArrivals.SteadyArrivalsNeverReclaim: its bound is sufficient; the exact one is stated over stores.
- WatchdogBounds.SteadyBoundIsExact: leaves out gap = 0, under which no time can pass while the watchdog is armed.
- A stop during a reclaim is not claimed to take effect: the owner of the flag restarts afterwards.
- Users of the handle without any lock: inject_reference_position for positions of other providers, inject_reference_time, set_assistance_mode, set_position_mode, the SUPL assistant, delete_all_aiding_data. The injection that an emitted GPS position causes is modelled.

Reference counting

- Multi-stream use of the tower: a tracker keeps one flag for three streams, so the engine's feedback then zeroes live counters. The tower is position-only; the controller covers all three streams.
- Offline and satellite toggles in the tower depend on nested signal emission in a library that is not part of this model; disable and enable are covered for the controller.
- Tower.Engine.SetStatus: the status `off` and the guard for satellite-based providers are not modelled.
- Tower.Engine.AddProvider: the synchronization to an engine that is off or has satellites off, and the wiring of references, are not modelled.
- Tower.Engine.StopBag: requires every tracker of the bag to be counted, which conservation gives for every running session.
- Providers and sessions are entries of lists, referred to by index instead of by shared pointer; a property assignment notifies synchronously and only on a change.
- ControllerRace.ConcurrentCounting: no enable or disable runs concurrently, and each thread stops only what it started.

Time, positions and data

- Compiler byte-swap intrinsics, the 16-bit and the signed overloads of endian_reverse, and the direct loads and stores on x86; the portable code is modelled.
- The one-byte leap/version/mode field of the SNTP packet, sockets and timeouts of a request.
- Sntp.SntpAccuracy: assumes that all clocks run at the same rate during the exchange and that all stamps lie between 1970 and the 2036 wrap.
- Heading and velocity decisions of the time-based policy read an uninitialised variable and have no behaviour to state.
- UpdatePolicy.HeldIsBestSinceJump: for nondecreasing time stamps, as is Fusion.Freshness.
- Floating-point numbers are reals: no rounding and no NaN; from_percent is computed exactly.
- Criteria::satisfies is constant; the State string codec, the int32 enumeration codecs and D-Bus signatures are finite tables.
- RadioCell.CachedRadioCell.constructor: out-of-range parameters make the original throw before any object exists, so they are excluded.
- Cells of unknown technology or whose constructor returned early have uninitialised storage; so has the sixth slot before the first switch to LTE, which is never read then and is 0 here.
- Races of the invalidation timer with reports (it expires between them), and the parsing of country and network codes from strings.
- The connectivity manager, permission managers, Qt plugin, command line and daemon, reporters and the other providers.
