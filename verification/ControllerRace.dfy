/** One counter of Provider::Controller under concurrent starts and stops.

    The counter is atomic, but a call is several steps: test the sign, change the counter,
    and, if the change hit the threshold, call the instance. Threads interleave freely;
    each stops only what it started. */
module ControllerRace {

  type Tid = nat

  datatype Pc =
    | Idle
    | Incrementing        // start: saw a counter that is not negative
    | Starting            // incremented to 1, instance.start pending
    | Held                // start returned, stop not yet called
    | Decrementing        // stop: saw a counter that is not negative
    | Stopping            // decremented to 0, instance.stop pending
    | Refused             // start found the controller disabled

  /** The instance's view is the last call it received. */
  datatype State = State(
    counter: int, starts: nat, stops: nat, instanceOn: bool, threads: map<Tid, Pc>)

  function Init(): State { State(0, 0, 0, false, map[]) }

  function PcOf(s: State, t: Tid): Pc { if t in s.threads then s.threads[t] else Idle }

  /** One atomic step of thread t; a thread not seen before begins a start. */
  function Step(s: State, t: Tid): State {
    match PcOf(s, t)
    case Idle => s.(threads := s.threads[t := if s.counter < 0 then Refused else Incrementing])
    case Incrementing =>
      s.(counter := s.counter + 1, threads := s.threads[t := if s.counter + 1 == 1 then Starting else Held])
    case Starting => s.(starts := s.starts + 1, instanceOn := true, threads := s.threads[t := Held])
    case Held => s.(threads := s.threads[t := if s.counter < 0 then Idle else Decrementing])
    case Decrementing =>
      s.(counter := s.counter - 1, threads := s.threads[t := if s.counter - 1 == 0 then Stopping else Idle])
    case Stopping => s.(stops := s.stops + 1, instanceOn := false, threads := s.threads[t := Idle])
    case Refused => s.(threads := s.threads[t := Idle])
  }

  function Exec(s: State, schedule: seq<Tid>): State
    decreases |schedule|
  {
    if schedule == [] then s else Exec(Step(s, schedule[0]), schedule[1..])
  }

  /** Threads that have incremented and not yet decremented. */
  function Holders(s: State): set<Tid> {
    set t | t in s.threads && (s.threads[t].Starting? || s.threads[t].Held? || s.threads[t].Decrementing?)
  }

  function PendingStarts(s: State): set<Tid> { set t | t in s.threads && s.threads[t].Starting? }

  function PendingStops(s: State): set<Tid> { set t | t in s.threads && s.threads[t].Stopping? }

  /** Instance starts, issued or pending, minus instance stops, issued or pending. */
  function Net(s: State): int {
    (s.starts + |PendingStarts(s)|) - (s.stops + |PendingStops(s)|)
  }

  predicate Inv(s: State) {
    s.counter == |Holders(s)| && Net(s) == if s.counter > 0 then 1 else 0
  }

  /** How one thread's move changes a set of threads chosen by program counter. */
  lemma SetMove(before: set<Tid>, after: set<Tid>, t: Tid)
    requires before - {t} == after - {t}
    ensures |after| == |before| + (if t in after then 1 else 0) - (if t in before then 1 else 0)
  {
    assert before == (before - {t}) + (if t in before then {t} else {});
    assert after == (after - {t}) + (if t in after then {t} else {});
  }

  lemma StepKeeps(s: State, t: Tid)
    requires Inv(s)
    ensures Inv(Step(s, t))
  {
    var s' := Step(s, t);
    SetMove(Holders(s), Holders(s'), t);
    SetMove(PendingStarts(s), PendingStarts(s'), t);
    SetMove(PendingStops(s), PendingStops(s'), t);
  }

  lemma {:induction false} ExecKeeps(s: State, schedule: seq<Tid>)
    requires Inv(s)
    ensures Inv(Exec(s, schedule))
    decreases |schedule|
  {
    if schedule != [] {
      StepKeeps(s, schedule[0]);
      ExecKeeps(Step(s, schedule[0]), schedule[1..]);
    }
  }

  /** For every interleaving of matched starts and stops: the counter is the number of threads
      between increment and decrement, and instance starts minus instance stops, counting those
      still to be issued, is 1 when the counter is positive and 0 otherwise. */
  lemma ConcurrentCounting(schedule: seq<Tid>)
    ensures var s := Exec(Init(), schedule);
            s.counter == |Holders(s)| && Net(s) == if s.counter > 0 then 1 else 0
  {
    ExecKeeps(Init(), schedule);
  }

  /** With no call in flight, issued starts exceed issued stops by one exactly while somebody holds. */
  lemma QuiescentCounting(schedule: seq<Tid>)
    requires var s := Exec(Init(), schedule); PendingStarts(s) == {} && PendingStops(s) == {}
    ensures var s := Exec(Init(), schedule); s.starts - s.stops == if Holders(s) != {} then 1 else 0
  {
    ConcurrentCounting(schedule);
    var s := Exec(Init(), schedule);
    if Holders(s) != {} {
      var t :| t in Holders(s);
      SetMove(Holders(s), Holders(s) - {t}, t);
    }
  }

  // --- When the order of the instance calls agrees, too -----------------------------------------

  /** No start has overtaken a stop that is decided and not issued. */
  predicate Orderly(s: State) { PendingStops(s) == {} || s.counter <= 0 }

  predicate OrderlyRun(s: State, schedule: seq<Tid>)
    decreases |schedule|
  {
    Orderly(s) && (schedule != [] ==> OrderlyRun(Step(s, schedule[0]), schedule[1..]))
  }

  /** The instance is on exactly while counted, apart from one call still to be issued. */
  predicate Tracks(s: State) {
    if s.counter > 0 then
      PendingStops(s) == {} && (s.instanceOn <==> PendingStarts(s) == {})
    else
      PendingStarts(s) == {} && (s.instanceOn <==> PendingStops(s) != {})
  }

  /** At most one start is pending, since its thread already holds the stream, and at most one stop. */
  predicate OnePending(s: State) {
    && (forall t, u :: t in PendingStarts(s) && u in PendingStarts(s) ==> t == u)
    && (forall t, u :: t in PendingStops(s) && u in PendingStops(s) ==> t == u)
  }

  lemma HolderCounts(s: State, t: Tid)
    requires Inv(s) && t in Holders(s)
    ensures s.counter > 0
    ensures s.counter == 1 ==> Holders(s) == {t}
  {
    SetMove(Holders(s), Holders(s) - {t}, t);
    if s.counter == 1 {
      assert Holders(s) - {t} == {};
    }
  }

  /** The sets a step changes, by what its thread was doing. */
  lemma PendingAfter(s: State, t: Tid)
    ensures var s' := Step(s, t);
            && PendingStarts(s') == (if PcOf(s', t).Starting? then PendingStarts(s) + {t} else PendingStarts(s) - {t})
            && PendingStops(s') == (if PcOf(s', t).Stopping? then PendingStops(s) + {t} else PendingStops(s) - {t})
  {
  }

  lemma StepTracks(s: State, t: Tid)
    requires Inv(s) && Tracks(s) && OnePending(s) && Orderly(Step(s, t))
    ensures Tracks(Step(s, t)) && OnePending(Step(s, t))
  {
    PendingAfter(s, t);
    match PcOf(s, t)
    case Starting =>
      HolderCounts(s, t);
      assert t in PendingStarts(s) && PendingStarts(s) == {t};
    case Stopping =>
      assert t in PendingStops(s) && PendingStops(s) == {t};
    case Decrementing =>
      HolderCounts(s, t);
      assert PendingStarts(s) <= Holders(s);
    case _ =>
  }

  lemma {:induction false} RunTracks(s: State, schedule: seq<Tid>)
    requires Inv(s) && Tracks(s) && OnePending(s) && OrderlyRun(s, schedule)
    ensures var s' := Exec(s, schedule); Inv(s') && Tracks(s') && OnePending(s') && Orderly(s')
    decreases |schedule|
  {
    if schedule != [] {
      StepKeeps(s, schedule[0]);
      StepTracks(s, schedule[0]);
      RunTracks(Step(s, schedule[0]), schedule[1..]);
    }
  }

  /** As long as no start overtakes an unissued stop, the instance follows the counter: with no call
      in flight it is on exactly while somebody holds the stream. */
  lemma OrderlyRunsAgree(schedule: seq<Tid>)
    requires OrderlyRun(Init(), schedule)
    ensures var s := Exec(Init(), schedule);
            PendingStarts(s) == {} && PendingStops(s) == {} ==> (s.instanceOn <==> s.counter > 0)
  {
    RunTracks(Init(), schedule);
  }

  /** Threads only issue the instance calls they have decided on. */
  predicate IssuesOnly(s: State, schedule: seq<Tid>)
    decreases |schedule|
  {
    schedule != [] ==>
      && (PcOf(s, schedule[0]).Starting? || PcOf(s, schedule[0]).Stopping?)
      && IssuesOnly(Step(s, schedule[0]), schedule[1..])
  }

  /** Nothing is in flight, and the instance is on without a holder or off with one. */
  predicate Wrong(s: State) {
    PendingStarts(s) == {} && PendingStops(s) == {} && (s.instanceOn <==> s.counter <= 0)
  }

  lemma {:induction false} IssueStarts(s: State) returns (schedule: seq<Tid>)
    ensures IssuesOnly(s, schedule)
    ensures var s' := Exec(s, schedule);
            PendingStarts(s') == {} && PendingStops(s') == PendingStops(s) && s'.counter == s.counter
    decreases |PendingStarts(s)|
  {
    if PendingStarts(s) == {} {
      schedule := [];
    } else {
      var t :| t in PendingStarts(s);
      PendingAfter(s, t);
      SetMove(PendingStarts(s), PendingStarts(Step(s, t)), t);
      var rest := IssueStarts(Step(s, t));
      schedule := [t] + rest;
      assert schedule[1..] == rest;
      assert PendingStops(Step(s, t)) == PendingStops(s);
    }
  }

  lemma {:induction false} IssueStops(s: State) returns (schedule: seq<Tid>)
    requires PendingStarts(s) == {} && (PendingStops(s) == {} ==> !s.instanceOn)
    ensures IssuesOnly(s, schedule)
    ensures var s' := Exec(s, schedule);
            PendingStarts(s') == {} && PendingStops(s') == {} && !s'.instanceOn && s'.counter == s.counter
    decreases |PendingStops(s)|
  {
    if PendingStops(s) == {} {
      schedule := [];
    } else {
      var t :| t in PendingStops(s);
      PendingAfter(s, t);
      SetMove(PendingStops(s), PendingStops(Step(s, t)), t);
      var rest := IssueStops(Step(s, t));
      schedule := [t] + rest;
      assert schedule[1..] == rest;
    }
  }

  lemma {:induction false} IssueBoth(s: State, first: seq<Tid>, second: seq<Tid>)
    requires IssuesOnly(s, first) && IssuesOnly(Exec(s, first), second)
    ensures IssuesOnly(s, first + second) && Exec(s, first + second) == Exec(Exec(s, first), second)
    decreases |first|
  {
    if first == [] {
      assert first + second == second;
    } else {
      assert (first + second)[1..] == first[1..] + second;
      IssueBoth(Step(s, first[0]), first[1..], second);
    }
  }

  /** Once a start has overtaken a stop, issuing the pending starts first and the stops last leaves the
      instance off while the stream is held. */
  lemma OvertakenEndsWrong(s: State) returns (schedule: seq<Tid>)
    requires !Orderly(s)
    ensures IssuesOnly(s, schedule) && Wrong(Exec(s, schedule)) && Exec(s, schedule).counter == s.counter > 0
  {
    var first := IssueStarts(s);
    var second := IssueStops(Exec(s, first));
    IssueBoth(s, first, second);
    schedule := first + second;
  }

  lemma {:induction false} IssuingIsOrderly(s: State, schedule: seq<Tid>)
    requires Orderly(s) && IssuesOnly(s, schedule)
    ensures OrderlyRun(s, schedule)
    decreases |schedule|
  {
    if schedule != [] {
      PendingAfter(s, schedule[0]);
      IssuingIsOrderly(Step(s, schedule[0]), schedule[1..]);
    }
  }

  /** The exact condition: after a run so far orderly and one more step, every way of issuing the calls that are
      pending ends right if and only if that step is no start overtaking an unissued stop. */
  lemma RightIffNotOvertaken(schedule: seq<Tid>, t: Tid)
    requires OrderlyRun(Init(), schedule)
    ensures var s := Step(Exec(Init(), schedule), t);
            Orderly(s) <==> forall more :: IssuesOnly(s, more) ==> !Wrong(Exec(s, more))
  {
    RunTracks(Init(), schedule);
    var s0 := Exec(Init(), schedule);
    var s := Step(s0, t);
    if Orderly(s) {
      StepKeeps(s0, t);
      StepTracks(s0, t);
      forall more | IssuesOnly(s, more)
        ensures !Wrong(Exec(s, more))
      {
        IssuingIsOrderly(s, more);
        RunTracks(s, more);
      }
    } else {
      var more := OvertakenEndsWrong(s);
    }
  }

  /** The counts agree but the order of the instance calls does not: a stop decided before a start
      can be issued after it, leaving the instance off while a thread holds the stream. */
  lemma StopMayOvertake()
    ensures exists schedule :: var s := Exec(Init(), schedule);
              PendingStarts(s) == {} && PendingStops(s) == {} && s.counter == 1 && !s.instanceOn
  {
    // Thread 0 starts and decides to stop; thread 1 starts; then thread 0 issues its stop.
    var s3 := State(1, 1, 0, true, map[0 := Held]);
    var s6 := State(0, 1, 0, true, map[0 := Stopping, 1 := Incrementing]);
    var s9 := State(1, 2, 1, false, map[0 := Idle, 1 := Held]);
    FirstThree();
    NextThree(s3);
    LastThree(s6);
    Unroll(Init(), [0, 0, 0], [0, 0, 1, 1, 1, 0]);
    Unroll(s3, [0, 0, 1], [1, 1, 0]);
    Unroll(s6, [1, 1, 0], []);
    assert [0, 0, 1] + [1, 1, 0] == [0, 0, 1, 1, 1, 0] && [1, 1, 0] + [] == [1, 1, 0];
    assert Exec(Init(), [0, 0, 0] + [0, 0, 1, 1, 1, 0]) == s9;
    assert PendingStarts(s9) == {} && PendingStops(s9) == {};
  }

  lemma FirstThree()
    ensures Step(Step(Step(Init(), 0), 0), 0) == State(1, 1, 0, true, map[0 := Held])
  {
  }

  lemma NextThree(s: State)
    requires s == State(1, 1, 0, true, map[0 := Held])
    ensures Step(Step(Step(s, 0), 0), 1) == State(0, 1, 0, true, map[0 := Stopping, 1 := Incrementing])
  {
    assert Step(s, 0) == State(1, 1, 0, true, map[0 := Decrementing]);
  }

  lemma LastThree(s: State)
    requires s == State(0, 1, 0, true, map[0 := Stopping, 1 := Incrementing])
    ensures Step(Step(Step(s, 1), 1), 0) == State(1, 2, 1, false, map[0 := Idle, 1 := Held])
  {
    assert Step(s, 1) == State(1, 1, 0, true, map[0 := Stopping, 1 := Starting]);
  }

  lemma Unroll(s: State, three: seq<Tid>, rest: seq<Tid>)
    requires |three| == 3
    ensures Exec(s, three + rest) == Exec(Step(Step(Step(s, three[0]), three[1]), three[2]), rest)
  {
    var all := three + rest;
    assert all[1..][1..] == all[2..] && all[2..][1..] == rest;
    var s1 := Step(s, three[0]);
    var s2 := Step(s1, three[1]);
    assert Exec(s, all) == Exec(s1, all[1..]);
    assert Exec(s1, all[1..]) == Exec(s2, all[2..]);
  }
}
