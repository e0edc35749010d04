/** The reference-counting tower: session proxy, fusion provider, state tracking provider, leaf
    provider, with the engine's "is anything active" feedback. Position updates only, engine on. */
module Tower {
  import opened Controller
  import Requests = Controller

  datatype Status = On | Active

  /** A StateTrackingProvider with its controller, and the leaf provider it wraps with its own. */
  datatype Tracker = Tracker(counter: int, active: bool, leafCounter: int, leafOn: bool)

  /** A client session: the counters of its ProxyProvider and of its FusionProvider, and the
      trackers the fusion provider was built from (a std::set, so each at most once). */
  datatype Session = Session(proxy: int, fusion: int, bag: seq<nat>)

  datatype Model = Model(trackers: seq<Tracker>, sessions: seq<Session>, status: Status)

  const NEW_TRACKER: Tracker := Tracker(0, false, 0, false)

  predicate AnyActive(trackers: seq<Tracker>) { exists k :: 0 <= k < |trackers| && trackers[k].active }

  function StatusOf(trackers: seq<Tracker>): Status { if AnyActive(trackers) then Active else On }

  /** A tracker at rest: it is active exactly while counted, and then holds its leaf once. */
  predicate TrackerOk(t: Tracker) {
    && t.counter >= 0
    && (t.active <==> t.counter > 0)
    && t.leafCounter == (if t.counter > 0 then 1 else 0)
    && (t.leafOn <==> t.counter > 0)
  }

  predicate Settled(trackers: seq<Tracker>, status: Status) {
    (forall k :: 0 <= k < |trackers| ==> TrackerOk(trackers[k])) && status == StatusOf(trackers)
  }

  // --- What one request means --------------------------------------------------------------

  /** The tracker counted n times. */
  function Counted(n: nat): Tracker { Tracker(n, n > 0, if n > 0 then 1 else 0, n > 0) }

  /** The trackers of the bag counted d more times, the others as they are. */
  function Shift(trackers: seq<Tracker>, bag: seq<nat>, d: int): seq<Tracker>
    requires forall k :: 0 <= k < |trackers| && k in bag ==> trackers[k].counter + d >= 0
  {
    seq(|trackers|, k requires 0 <= k < |trackers| =>
      if k in bag then Counted(trackers[k].counter + d) else trackers[k])
  }

  predicate Distinct(bag: seq<nat>) { forall a, b :: 0 <= a < b < |bag| ==> bag[a] != bag[b] }

  predicate BagOk(bag: seq<nat>, n: nat) { Distinct(bag) && forall a :: 0 <= a < |bag| ==> bag[a] < n }

  /** How many running sessions have tracker k in their bag. */
  function Users(sessions: seq<Session>, k: nat): nat {
    if sessions == [] then 0
    else
      var last := sessions[|sessions| - 1];
      Users(sessions[..|sessions| - 1], k) + (if last.proxy > 0 && k in last.bag then 1 else 0)
  }

  predicate SessionOk(s: Session, n: nat) {
    s.proxy >= DISABLED && s.fusion == (if s.proxy > 0 then 1 else 0) && BagOk(s.bag, n)
  }

  /** Conservation across the layers. */
  predicate Conserved(m: Model) {
    && Settled(m.trackers, m.status)
    && (forall i :: 0 <= i < |m.sessions| ==> SessionOk(m.sessions[i], |m.trackers|))
    && (forall k :: 0 <= k < |m.trackers| ==> m.trackers[k].counter == Users(m.sessions, k))
  }

  /** A request to start: only a session that was idle and is not disabled changes the trackers. */
  ghost predicate Started(m: Model, i: nat, m': Model)
    requires i < |m.sessions| && Settled(m.trackers, m.status)
  {
    var s := m.sessions[i];
    && m'.sessions == m.sessions[i := s.(proxy := Incremented(s.proxy), fusion := if s.proxy == 0 then 1 else s.fusion)]
    && m'.trackers == (if s.proxy == 0 then Shift(m.trackers, s.bag, 1) else m.trackers)
    && m'.status == StatusOf(m'.trackers)
  }

  /** A request to stop: only the last stop of a running session changes the trackers. */
  ghost predicate Stopped(m: Model, i: nat, m': Model)
    requires i < |m.sessions|
  {
    var s := m.sessions[i];
    && m'.sessions == m.sessions[i := s.(proxy := Decremented(s.proxy), fusion := if s.proxy == 1 then 0 else s.fusion)]
    && (s.proxy == 1 ==> forall k :: 0 <= k < |m.trackers| && k in s.bag ==> m.trackers[k].counter > 0)
    && m'.trackers == (if s.proxy == 1 then Shift(m.trackers, s.bag, -1) else m.trackers)
    && m'.status == StatusOf(m'.trackers)
  }

  // --- The objects -------------------------------------------------------------------------

  class Engine {
    var trackers: seq<Tracker>
    var sessions: seq<Session>
    var status: Status

    function View(): Model
      reads this
    {
      Model(trackers, sessions, status)
    }

    constructor ()
      ensures View() == Model([], [], On)
    {
      trackers, sessions, status := [], [], On;
    }

    /** Assigning the engine_state property; a change to `on` enables every tracker's controller. */
    method SetStatus(value: Status)
      modifies this`status, this`trackers
      ensures status == value
      ensures |trackers| == |old(trackers)|
      ensures forall k :: 0 <= k < |trackers| ==>
                trackers[k] == if old(status) != value && value == On then old(trackers)[k].(counter := 0)
                               else old(trackers)[k]
    {
      if value == status { return; }
      status := value;
      if value == On {
        var i := 0;
        while i < |trackers|
          invariant 0 <= i <= |trackers| == |old(trackers)| && status == value
          invariant forall k :: 0 <= k < i ==> trackers[k] == old(trackers)[k].(counter := 0)
          invariant forall k :: i <= k < |trackers| ==> trackers[k] == old(trackers)[k]
        {
          trackers := trackers[i := trackers[i].(counter := 0)];
          i := i + 1;
        }
      }
    }

    /** The engine's slot for a change of some tracker's state. */
    method OnTrackerStateChanged()
      requires forall k :: 0 <= k < |trackers| && !trackers[k].active ==> trackers[k].counter == 0
      modifies this`status, this`trackers
      ensures trackers == old(trackers)
      ensures status == StatusOf(trackers)
    {
      var isAnyActive := false;
      var i := 0;
      while i < |trackers|
        invariant 0 <= i <= |trackers|
        invariant isAnyActive <==> exists k :: 0 <= k < i && trackers[k].active
      {
        isAnyActive := isAnyActive || trackers[i].active;
        i := i + 1;
      }
      SetStatus(if isAnyActive then Active else On);
      assert trackers == old(trackers);
    }

    /** start_position_updates() on the controller of tracker k. */
    method StartTracker(k: nat)
      requires k < |trackers| && Settled(trackers, status)
      modifies this`status, this`trackers
      ensures trackers == old(trackers)[k := Counted(old(trackers)[k].counter + 1)]
      ensures Settled(trackers, status)
    {
      if trackers[k].counter < 0 { return; }
      trackers := trackers[k := trackers[k].(counter := trackers[k].counter + 1)];
      if trackers[k].counter == 1 {
        // StateTrackingProvider::start_position_updates()
        trackers := trackers[k := trackers[k].(active := true)];
        OnTrackerStateChanged();
        ghost var notified := trackers;
        StartLeaf(k);
        KeepsStatus(notified, trackers, k);
      } else {
        KeepsStatus(old(trackers), trackers, k);
      }
    }

    /** stop_position_updates() on the controller of tracker k; a stop that matches no start only
        leaves the sentinel behind. */
    method StopTracker(k: nat)
      requires k < |trackers| && Settled(trackers, status)
      modifies this`status, this`trackers
      ensures var t := old(trackers)[k];
              trackers == old(trackers)[k := if t.counter > 0 then Counted(t.counter - 1) else t.(counter := DISABLED)]
      ensures status == StatusOf(trackers)
      ensures old(trackers)[k].counter > 0 ==> Settled(trackers, status)
    {
      if trackers[k].counter < 0 { return; }
      trackers := trackers[k := trackers[k].(counter := trackers[k].counter - 1)];
      if trackers[k].counter == 0 {
        // StateTrackingProvider::stop_position_updates()
        trackers := trackers[k := trackers[k].(active := false)];
        OnTrackerStateChanged();
        ghost var notified := trackers;
        StopLeaf(k);
        KeepsStatus(notified, trackers, k);
      } else {
        KeepsStatus(old(trackers), trackers, k);
      }
    }

    method StartLeaf(k: nat)
      requires k < |trackers|
      modifies this`trackers
      ensures var t := old(trackers)[k];
              trackers == old(trackers)[k := t.(leafCounter := Incremented(t.leafCounter),
                                                leafOn := t.leafOn || t.leafCounter == 0)]
    {
      if trackers[k].leafCounter < 0 { return; }
      trackers := trackers[k := trackers[k].(leafCounter := trackers[k].leafCounter + 1)];
      if trackers[k].leafCounter == 1 {
        trackers := trackers[k := trackers[k].(leafOn := true)];
      }
    }

    method StopLeaf(k: nat)
      requires k < |trackers|
      modifies this`trackers
      ensures var t := old(trackers)[k];
              trackers == old(trackers)[k := t.(leafCounter := Decremented(t.leafCounter),
                                                leafOn := t.leafOn && t.leafCounter != 1)]
    {
      if trackers[k].leafCounter < 0 { return; }
      trackers := trackers[k := trackers[k].(leafCounter := trackers[k].leafCounter - 1)];
      if trackers[k].leafCounter == 0 {
        trackers := trackers[k := trackers[k].(leafOn := false)];
      }
    }

    /** FusionProvider::start_position_updates(): every provider of the bag, one after the other. */
    method StartBag(bag: seq<nat>)
      requires Settled(trackers, status) && BagOk(bag, |trackers|)
      modifies this`status, this`trackers
      ensures trackers == Shift(old(trackers), bag, 1)
      ensures Settled(trackers, status)
    {
      var i := 0;
      while i < |bag|
        invariant 0 <= i <= |bag| && |trackers| == |old(trackers)|
        invariant Settled(trackers, status)
        invariant forall k :: 0 <= k < |trackers| ==>
                    trackers[k] == if k in bag[..i] then Counted(old(trackers)[k].counter + 1) else old(trackers)[k]
      {
        assert bag[i] !in bag[..i];
        StartTracker(bag[i]);
        i := i + 1;
      }
      assert bag[..|bag|] == bag;
    }

    method StopBag(bag: seq<nat>)
      requires Settled(trackers, status) && BagOk(bag, |trackers|)
      requires forall k :: 0 <= k < |trackers| && k in bag ==> trackers[k].counter > 0
      modifies this`status, this`trackers
      ensures trackers == Shift(old(trackers), bag, -1)
      ensures Settled(trackers, status)
    {
      var i := 0;
      while i < |bag|
        invariant 0 <= i <= |bag| && |trackers| == |old(trackers)|
        invariant Settled(trackers, status)
        invariant forall k :: 0 <= k < |trackers| ==>
                    trackers[k] == if k in bag[..i] then Counted(old(trackers)[k].counter - 1) else old(trackers)[k]
      {
        assert bag[i] !in bag[..i] && bag[i] in bag;
        StopTracker(bag[i]);
        i := i + 1;
      }
      assert bag[..|bag|] == bag;
    }

    /** A client starts position updates: proxy controller, proxy, fusion controller, fusion. */
    method StartSession(i: nat)
      requires i < |sessions| && Conserved(View())
      modifies this
      ensures Started(old(View()), i, View())
      ensures Conserved(View())
    {
      StartKeeps(View(), i);
      if sessions[i].proxy >= 0 {
        sessions := sessions[i := sessions[i].(proxy := sessions[i].proxy + 1)];
        if sessions[i].proxy == 1 {
          sessions := sessions[i := sessions[i].(fusion := sessions[i].fusion + 1)];
          if sessions[i].fusion == 1 {
            StartBag(sessions[i].bag);
          }
        }
      }
      assert Started(old(View()), i, View());
    }

    method StopSession(i: nat)
      requires i < |sessions| && Conserved(View())
      modifies this
      ensures Stopped(old(View()), i, View())
      ensures Conserved(View())
    {
      StopKeeps(View(), i);
      BagIsCounted(View(), i);
      if sessions[i].proxy >= 0 {
        sessions := sessions[i := sessions[i].(proxy := sessions[i].proxy - 1)];
        if sessions[i].proxy == 0 {
          sessions := sessions[i := sessions[i].(fusion := sessions[i].fusion - 1)];
          if sessions[i].fusion == 0 {
            StopBag(sessions[i].bag);
          }
        }
      }
      assert Stopped(old(View()), i, View());
    }

    /** Engine::add_provider(). */
    method AddProvider()
      requires Conserved(View())
      modifies this`trackers
      ensures View() == old(View()).(trackers := old(trackers) + [NEW_TRACKER])
      ensures Conserved(View())
    {
      NewTrackerKeeps(View());
      trackers := trackers + [NEW_TRACKER];
    }

    /** A new session with the provider selection made for it. */
    method OpenSession(bag: seq<nat>)
      requires Conserved(View()) && BagOk(bag, |trackers|)
      modifies this`sessions
      ensures View() == old(View()).(sessions := old(sessions) + [Session(0, 0, bag)])
      ensures Conserved(View())
    {
      NewSessionKeeps(View(), bag);
      sessions := sessions + [Session(0, 0, bag)];
    }
  }

  // --- Conservation ------------------------------------------------------------------------

  /** Replacing one tracker by another that is as active leaves the overall status alone. */
  lemma KeepsStatus(before: seq<Tracker>, after: seq<Tracker>, k: nat)
    requires k < |before| == |after|
    requires after == before[k := after[k]]
    ensures before[k].active == after[k].active ==> AnyActive(before) == AnyActive(after)
  {
    if before[k].active == after[k].active {
      if AnyActive(before) {
        var j :| 0 <= j < |before| && before[j].active;
        assert after[j].active;
      }
      if AnyActive(after) {
        var j :| 0 <= j < |after| && after[j].active;
        assert before[j].active;
      }
    }
  }

  lemma {:induction false} UsersUpdate(sessions: seq<Session>, i: nat, s: Session, k: nat)
    requires i < |sessions| && s.bag == sessions[i].bag
    ensures Users(sessions[i := s], k) == Users(sessions, k)
         + (if s.proxy > 0 && k in s.bag then 1 else 0)
         - (if sessions[i].proxy > 0 && k in s.bag then 1 else 0)
  {
    var n := |sessions| - 1;
    if i == n {
      assert sessions[i := s][..n] == sessions[..n];
    } else {
      assert sessions[i := s][..n] == sessions[..n][i := s];
      UsersUpdate(sessions[..n], i, s, k);
    }
  }

  lemma {:induction false} UsersCount(sessions: seq<Session>, i: nat, k: nat)
    requires i < |sessions| && sessions[i].proxy > 0 && k in sessions[i].bag
    ensures Users(sessions, k) > 0
  {
    if i < |sessions| - 1 {
      UsersCount(sessions[..|sessions| - 1], i, k);
    }
  }

  lemma BagIsCounted(m: Model, i: nat)
    requires Conserved(m) && i < |m.sessions|
    ensures m.sessions[i].proxy > 0 ==>
              forall k :: 0 <= k < |m.trackers| && k in m.sessions[i].bag ==> m.trackers[k].counter > 0
  {
    if m.sessions[i].proxy > 0 {
      forall k | 0 <= k < |m.trackers| && k in m.sessions[i].bag
        ensures m.trackers[k].counter > 0
      {
        UsersCount(m.sessions, i, k);
      }
    }
  }

  lemma StartKeepsTracker(m: Model, i: nat, m': Model, k: nat)
    requires Conserved(m) && i < |m.sessions| && Started(m, i, m') && k < |m.trackers|
    ensures k < |m'.trackers| && m'.trackers[k].counter == Users(m'.sessions, k) && TrackerOk(m'.trackers[k])
  {
    assert SessionOk(m.sessions[i], |m.trackers|) && TrackerOk(m.trackers[k]);
    UsersUpdate(m.sessions, i, m'.sessions[i], k);
  }

  lemma StartKeeps(m: Model, i: nat)
    requires Conserved(m) && i < |m.sessions|
    ensures forall m' :: Started(m, i, m') ==> Conserved(m')
  {
    forall m' | Started(m, i, m')
      ensures Conserved(m')
    {
      assert SessionOk(m.sessions[i], |m.trackers|);
      forall k | 0 <= k < |m'.trackers|
        ensures m'.trackers[k].counter == Users(m'.sessions, k) && TrackerOk(m'.trackers[k])
      {
        StartKeepsTracker(m, i, m', k);
      }
    }
  }

  lemma StopKeepsTracker(m: Model, i: nat, m': Model, k: nat)
    requires Conserved(m) && i < |m.sessions| && Stopped(m, i, m') && k < |m.trackers|
    ensures k < |m'.trackers| && m'.trackers[k].counter == Users(m'.sessions, k) && TrackerOk(m'.trackers[k])
  {
    assert SessionOk(m.sessions[i], |m.trackers|) && TrackerOk(m.trackers[k]);
    UsersUpdate(m.sessions, i, m'.sessions[i], k);
  }

  lemma StopKeeps(m: Model, i: nat)
    requires Conserved(m) && i < |m.sessions|
    ensures forall m' :: Stopped(m, i, m') ==> Conserved(m')
  {
    forall m' | Stopped(m, i, m')
      ensures Conserved(m')
    {
      assert SessionOk(m.sessions[i], |m.trackers|);
      forall k | 0 <= k < |m'.trackers|
        ensures m'.trackers[k].counter == Users(m'.sessions, k) && TrackerOk(m'.trackers[k])
      {
        StopKeepsTracker(m, i, m', k);
      }
    }
  }

  lemma {:induction false} NoUsers(sessions: seq<Session>, n: nat)
    requires forall i :: 0 <= i < |sessions| ==> BagOk(sessions[i].bag, n)
    ensures Users(sessions, n) == 0
  {
    if sessions != [] {
      NoUsers(sessions[..|sessions| - 1], n);
      assert BagOk(sessions[|sessions| - 1].bag, n);
    }
  }

  lemma NewTrackerKeeps(m: Model)
    requires Conserved(m)
    ensures Conserved(m.(trackers := m.trackers + [NEW_TRACKER]))
  {
    var m' := m.(trackers := m.trackers + [NEW_TRACKER]);
    NoUsers(m.sessions, |m.trackers|);
    if AnyActive(m.trackers) {
      var k :| 0 <= k < |m.trackers| && m.trackers[k].active;
      assert m'.trackers[k].active;
    }
    forall i | 0 <= i < |m'.sessions|
      ensures SessionOk(m'.sessions[i], |m'.trackers|)
    {
      assert SessionOk(m.sessions[i], |m.trackers|);
    }
  }

  lemma NewSessionKeeps(m: Model, bag: seq<nat>)
    requires Conserved(m) && BagOk(bag, |m.trackers|)
    ensures Conserved(m.(sessions := m.sessions + [Session(0, 0, bag)]))
  {
    var m' := m.(sessions := m.sessions + [Session(0, 0, bag)]);
    assert m'.sessions[..|m.sessions|] == m.sessions;
  }

  // --- Runs --------------------------------------------------------------------------------

  datatype Op = AddProvider | OpenSession(bag: seq<nat>) | StartSession(i: nat) | StopSession(i: nat)

  /** One request taking m to m'; requests about sessions or providers that do not exist are no step. */
  ghost predicate StepTo(m: Model, op: Op, m': Model) {
    && Settled(m.trackers, m.status)
    && match op
       case AddProvider => m' == m.(trackers := m.trackers + [NEW_TRACKER])
       case OpenSession(bag) => BagOk(bag, |m.trackers|) && m' == m.(sessions := m.sessions + [Session(0, 0, bag)])
       case StartSession(i) => i < |m.sessions| && Started(m, i, m')
       case StopSession(i) => i < |m.sessions| && Stopped(m, i, m')
  }

  ghost predicate IsRun(ms: seq<Model>, ops: seq<Op>) {
    && |ms| == |ops| + 1
    && ms[0] == Model([], [], On)
    && forall n :: 0 <= n < |ops| ==> StepTo(ms[n], ops[n], ms[n + 1])
  }

  lemma {:induction false} RunConserves(ms: seq<Model>, ops: seq<Op>, n: nat)
    requires IsRun(ms, ops) && n <= |ops|
    ensures Conserved(ms[n])
  {
    if n > 0 {
      RunConserves(ms, ops, n - 1);
      var m := ms[n - 1];
      assert StepTo(m, ops[n - 1], ms[n]);
      match ops[n - 1]
      case AddProvider => NewTrackerKeeps(m);
      case OpenSession(bag) => NewSessionKeeps(m, bag);
      case StartSession(i) => StartKeeps(m, i);
      case StopSession(i) => StopKeeps(m, i);
    }
  }

  /** Throughout any run, for any number of sessions and providers: each tracker's counter is the number of
      running sessions whose bag contains it; its leaf delivers exactly while that number is positive, and is
      counted once; the engine is active exactly while some tracker is. */
  lemma TowerConservation(ms: seq<Model>, ops: seq<Op>, n: nat, k: nat)
    requires IsRun(ms, ops) && n <= |ops| && k < |ms[n].trackers|
    ensures var t := ms[n].trackers[k];
            && t.counter == Users(ms[n].sessions, k)
            && (t.leafOn <==> Users(ms[n].sessions, k) > 0)
            && (t.active <==> t.leafOn)
            && t.leafCounter == (if t.leafOn then 1 else 0)
    ensures ms[n].status == Active <==> exists j :: 0 <= j < |ms[n].trackers| && ms[n].trackers[j].active
  {
    RunConserves(ms, ops, n);
    assert TrackerOk(ms[n].trackers[k]);
  }

  /** What a step asks of the controller of session i. */
  function RequestOf(op: Op, i: nat): seq<Requests.Op> {
    match op
    case StartSession(j) => if i == j then [DoStart(Position)] else []
    case StopSession(j) => if i == j then [DoStop(Position)] else []
    case _ => []
  }

  function RequestsOf(ops: seq<Op>, i: nat): seq<Requests.Op> {
    if ops == [] then [] else RequestsOf(ops[..|ops| - 1], i) + RequestOf(ops[|ops| - 1], i)
  }

  lemma {:induction false} OnlyItsRequests(ops: seq<Op>, i: nat)
    ensures OnlyRequests(RequestsOf(ops, i))
  {
    if ops != [] {
      OnlyItsRequests(ops[..|ops| - 1], i);
    }
  }

  /** A session that does not exist yet has seen no requests. */
  lemma {:induction false} NoRequestsBefore(ms: seq<Model>, ops: seq<Op>, n: nat, i: nat)
    requires IsRun(ms, ops) && n <= |ops| && i >= |ms[n].sessions|
    ensures RequestsOf(ops[..n], i) == []
  {
    if n > 0 {
      assert StepTo(ms[n - 1], ops[n - 1], ms[n]);
      NoRequestsBefore(ms, ops, n - 1, i);
      assert ops[..n][..n - 1] == ops[..n - 1];
    }
  }

  lemma RunRequest(s: State, op: Op, i: nat)
    ensures Run(s, RequestOf(op, i)).Counter(Position) ==
              if op == StartSession(i) then Incremented(s.Counter(Position))
              else if op == StopSession(i) then Decremented(s.Counter(Position))
              else s.Counter(Position)
  {
    var r := RequestOf(op, i);
    if r != [] {
      assert r[1..] == [];
      assert Run(s, r) == Run(Apply(s, r[0]), []);
    }
  }

  lemma ProxyStep(m: Model, op: Op, m': Model, i: nat)
    requires StepTo(m, op, m') && i < |m.sessions|
    ensures i < |m'.sessions|
    ensures m'.sessions[i].proxy ==
              if op == StartSession(i) then Incremented(m.sessions[i].proxy)
              else if op == StopSession(i) then Decremented(m.sessions[i].proxy)
              else m.sessions[i].proxy
  {
  }

  lemma {:induction false} ProxyFollowsRequests(ms: seq<Model>, ops: seq<Op>, n: nat, i: nat)
    requires IsRun(ms, ops) && n <= |ops| && i < |ms[n].sessions|
    ensures ms[n].sessions[i].proxy == Run(FRESH, RequestsOf(ops[..n], i)).Counter(Position)
  {
    if n > 0 {
      var m, op := ms[n - 1], ops[n - 1];
      var before := RequestsOf(ops[..n - 1], i);
      assert StepTo(m, op, ms[n]);
      assert ops[..n][..n - 1] == ops[..n - 1];
      RunAppend(FRESH, before, RequestOf(op, i));
      RunRequest(Run(FRESH, before), op, i);
      if i >= |m.sessions| {
        NoRequestsBefore(ms, ops, n - 1, i);
      } else {
        ProxyFollowsRequests(ms, ops, n - 1, i);
        ProxyStep(m, op, ms[n], i);
      }
    }
  }

  /** A session runs exactly while its client's starts exceed its stops; a stop too many disables it for good. */
  lemma SessionCounts(ms: seq<Model>, ops: seq<Op>, n: nat, i: nat)
    requires IsRun(ms, ops) && n <= |ops| && i < |ms[n].sessions|
    ensures var requests := RequestsOf(ops[..n], i);
            ms[n].sessions[i].proxy ==
              if Underruns(0, requests, Position) then DISABLED
              else Starts(requests, Position) - Stops(requests, Position)
  {
    ProxyFollowsRequests(ms, ops, n, i);
    OnlyItsRequests(ops[..n], i);
    CounterCounts(FRESH, RequestsOf(ops[..n], i), Position);
  }

  /** Counting a bag up and down again. */
  lemma ShiftBack(trackers: seq<Tracker>, bag: seq<nat>)
    requires forall k :: 0 <= k < |trackers| ==> trackers[k].counter >= 0
    requires forall k :: 0 <= k < |trackers| ==> TrackerOk(trackers[k])
    ensures Shift(Shift(trackers, bag, 1), bag, -1) == trackers
  {
    forall k | 0 <= k < |trackers|
      ensures Shift(Shift(trackers, bag, 1), bag, -1)[k] == trackers[k]
    {
      assert TrackerOk(trackers[k]);
    }
  }

  /** Stopping what was started restores every tracker, leaf and the engine status. */
  lemma StopUndoesStart(m: Model, i: nat, m1: Model, m2: Model)
    requires Conserved(m) && i < |m.sessions| && m.sessions[i].proxy >= 0
    requires Started(m, i, m1) && Stopped(m1, i, m2)
    ensures m2 == m
  {
    assert SessionOk(m.sessions[i], |m.trackers|);
    assert m2.sessions == m.sessions;
    assert forall k :: 0 <= k < |m.trackers| ==> TrackerOk(m.trackers[k]);
    ShiftBack(m.trackers, m.sessions[i].bag);
  }
}
