/** Provider::Controller: three reference counters in front of one provider instance. */
module Controller {

  datatype Stream = Position | Heading | Velocity

  /** A call that reaches the provider instance. */
  datatype Call = Start(stream: Stream) | Stop(stream: Stream)

  const DISABLED: int := -1

  /** The counter after start_*_updates(); a disabled counter stays as it is. */
  function Incremented(c: int): int { if c < 0 then c else c + 1 }

  /** The counter after stop_*_updates(). */
  function Decremented(c: int): int { if c < 0 then c else c - 1 }

  /** The counters, and the calls the instance has seen so far. */
  datatype State = State(position: int, heading: int, velocity: int, calls: seq<Call>) {
    function Counter(stream: Stream): int {
      match stream
      case Position => position
      case Heading => heading
      case Velocity => velocity
    }

    function Set(stream: Stream, c: int): State {
      match stream
      case Position => this.(position := c)
      case Heading => this.(heading := c)
      case Velocity => this.(velocity := c)
    }
  }

  datatype Op = DoStart(stream: Stream) | DoStop(stream: Stream) | DoDisable | DoEnable

  /** The stop call of disable() for one stream. */
  function StopIfRunning(s: State, stream: Stream): seq<Call> {
    if s.Counter(stream) > 0 then [Stop(stream)] else []
  }

  function Apply(s: State, op: Op): State {
    match op
    case DoStart(st) =>
      s.Set(st, Incremented(s.Counter(st))).(calls := s.calls + if s.Counter(st) == 0 then [Start(st)] else [])
    case DoStop(st) =>
      s.Set(st, Decremented(s.Counter(st))).(calls := s.calls + if s.Counter(st) == 1 then [Stop(st)] else [])
    case DoDisable =>
      State(DISABLED, DISABLED, DISABLED,
            s.calls + StopIfRunning(s, Position) + StopIfRunning(s, Heading) + StopIfRunning(s, Velocity))
    case DoEnable => State(0, 0, 0, s.calls)
  }

  const FRESH: State := State(0, 0, 0, [])

  /** The controller object. `calls` stands for the instance, which is foreign code here. */
  class Controller {
    var position: int
    var heading: int
    var velocity: int
    var calls: seq<Call>

    function Abstract(): State
      reads this
    {
      State(position, heading, velocity, calls)
    }

    constructor ()
      ensures Abstract() == FRESH
    {
      position, heading, velocity, calls := 0, 0, 0, [];
    }

    method Enable()
      modifies this
      ensures Abstract() == Apply(old(Abstract()), DoEnable)
    {
      position := 0;
      heading := 0;
      velocity := 0;
    }

    method Disable()
      modifies this
      ensures Abstract() == Apply(old(Abstract()), DoDisable)
    {
      if position > 0 { calls := calls + [Stop(Position)]; }
      if heading > 0 { calls := calls + [Stop(Heading)]; }
      if velocity > 0 { calls := calls + [Stop(Velocity)]; }
      position := DISABLED;
      heading := DISABLED;
      velocity := DISABLED;
    }

    method StartPositionUpdates()
      modifies this
      ensures Abstract() == Apply(old(Abstract()), DoStart(Position))
    {
      if position < 0 { return; }
      position := position + 1;
      if position == 1 { calls := calls + [Start(Position)]; }
    }

    method StopPositionUpdates()
      modifies this
      ensures Abstract() == Apply(old(Abstract()), DoStop(Position))
    {
      if position < 0 { return; }
      position := position - 1;
      if position == 0 { calls := calls + [Stop(Position)]; }
    }

    method StartHeadingUpdates()
      modifies this
      ensures Abstract() == Apply(old(Abstract()), DoStart(Heading))
    {
      if heading < 0 { return; }
      heading := heading + 1;
      if heading == 1 { calls := calls + [Start(Heading)]; }
    }

    method StopHeadingUpdates()
      modifies this
      ensures Abstract() == Apply(old(Abstract()), DoStop(Heading))
    {
      if heading < 0 { return; }
      heading := heading - 1;
      if heading == 0 { calls := calls + [Stop(Heading)]; }
    }

    method StartVelocityUpdates()
      modifies this
      ensures Abstract() == Apply(old(Abstract()), DoStart(Velocity))
    {
      if velocity < 0 { return; }
      velocity := velocity + 1;
      if velocity == 1 { calls := calls + [Start(Velocity)]; }
    }

    method StopVelocityUpdates()
      modifies this
      ensures Abstract() == Apply(old(Abstract()), DoStop(Velocity))
    {
      if velocity < 0 { return; }
      velocity := velocity - 1;
      if velocity == 0 { calls := calls + [Stop(Velocity)]; }
    }
  }

  // --- Alternation over runs ---------------------------------------------------------------

  /** The calls on one stream, in order: true for a start, false for a stop. */
  function Seen(calls: seq<Call>, stream: Stream): seq<bool> {
    if calls == [] then []
    else
      var rest := Seen(calls[..|calls| - 1], stream);
      var last := calls[|calls| - 1];
      if last.stream == stream then rest + [last.Start?] else rest
  }

  /** Start, stop, start, ... */
  predicate Alternates(seen: seq<bool>) {
    forall i :: 0 <= i < |seen| ==> (seen[i] <==> i % 2 == 0)
  }

  /** The instance delivers the stream: its last call on it was a start. */
  predicate Running(calls: seq<Call>, stream: Stream) {
    var seen := Seen(calls, stream);
    seen != [] && seen[|seen| - 1]
  }

  /** Start and stop in turn, running iff counted, and the counter's bound. */
  predicate StreamOk(s: State, stream: Stream) {
    && Alternates(Seen(s.calls, stream))
    && (Running(s.calls, stream) <==> s.Counter(stream) > 0)
    && s.Counter(stream) >= DISABLED
  }

  ghost predicate Ok(s: State) { forall stream: Stream :: StreamOk(s, stream) }

  predicate NothingRuns(s: State) { s.position <= 0 && s.heading <= 0 && s.velocity <= 0 }

  lemma SeenAppend(calls: seq<Call>, extra: seq<Call>, stream: Stream)
    requires |extra| <= 1
    ensures Seen(calls + extra, stream)
         == Seen(calls, stream) + if extra != [] && extra[0].stream == stream then [extra[0].Start?] else []
  {
    if extra == [] {
      assert calls + extra == calls;
    } else {
      assert (calls + extra)[..|calls + extra| - 1] == calls;
    }
  }

  lemma SeenStop(calls: seq<Call>, s: State, st: Stream, stream: Stream)
    ensures Seen(calls + StopIfRunning(s, st), stream)
         == Seen(calls, stream) + if st == stream && s.Counter(st) > 0 then [false] else []
  {
    SeenAppend(calls, StopIfRunning(s, st), stream);
  }

  lemma SeenDisable(s: State, stream: Stream)
    ensures Seen(Apply(s, DoDisable).calls, stream)
         == Seen(s.calls, stream) + if s.Counter(stream) > 0 then [false] else []
  {
    var c1 := s.calls + StopIfRunning(s, Position);
    var c2 := c1 + StopIfRunning(s, Heading);
    SeenStop(s.calls, s, Position, stream);
    SeenStop(c1, s, Heading, stream);
    SeenStop(c2, s, Velocity, stream);
  }

  /** The next call on a stream keeps alternation when it is the opposite of the last one. */
  lemma NextCallAlternates(before: seq<bool>, b: bool)
    requires Alternates(before)
    requires b <==> before == [] || !before[|before| - 1]
    ensures Alternates(before + [b])
  {
  }

  /** A stream's part of the state after calls that append at most one entry for it. */
  lemma StreamAfter(s: State, s': State, stream: Stream, extra: seq<bool>)
    requires StreamOk(s, stream)
    requires Seen(s'.calls, stream) == Seen(s.calls, stream) + extra
    requires s'.Counter(stream) >= DISABLED
    requires extra == [] ==> (s'.Counter(stream) > 0 <==> s.Counter(stream) > 0)
    requires extra != [] ==> extra == [s'.Counter(stream) > 0] && (s'.Counter(stream) > 0 <==> s.Counter(stream) <= 0)
    ensures StreamOk(s', stream)
  {
    var before := Seen(s.calls, stream);
    if extra == [] {
      assert before + extra == before;
    } else {
      NextCallAlternates(before, extra[0]);
    }
  }

  lemma ApplyKeepsStream(s: State, op: Op, stream: Stream)
    requires StreamOk(s, stream)
    requires op.DoEnable? ==> s.Counter(stream) <= 0
    ensures StreamOk(Apply(s, op), stream)
  {
    var s' := Apply(s, op);
    match op
    case DoStart(st) =>
      SeenAppend(s.calls, if s.Counter(st) == 0 then [Start(st)] else [], stream);
      StreamAfter(s, s', stream, if s.Counter(st) == 0 && st == stream then [true] else []);
    case DoStop(st) =>
      SeenAppend(s.calls, if s.Counter(st) == 1 then [Stop(st)] else [], stream);
      StreamAfter(s, s', stream, if s.Counter(st) == 1 && st == stream then [false] else []);
    case DoDisable =>
      SeenDisable(s, stream);
      StreamAfter(s, s', stream, if s.Counter(stream) > 0 then [false] else []);
    case DoEnable =>
  }

  /** One operation keeps alternation, the meaning of the counters and their bound; for enable()
      this is so exactly when nothing runs. */
  lemma ApplyKeeps(s: State, op: Op)
    requires Ok(s)
    ensures !op.DoEnable? ==> Ok(Apply(s, op))
    ensures op.DoEnable? ==> (Ok(Apply(s, op)) <==> NothingRuns(s))
  {
    if op.DoEnable? && !NothingRuns(s) {
      var stream := if s.position > 0 then Position else if s.heading > 0 then Heading else Velocity;
      assert StreamOk(s, stream) && !StreamOk(Apply(s, op), stream);
    } else {
      forall stream: Stream
        ensures StreamOk(Apply(s, op), stream)
      {
        assert s.Counter(Position) == s.position && s.Counter(Heading) == s.heading && s.Counter(Velocity) == s.velocity;
        ApplyKeepsStream(s, op, stream);
      }
    }
  }

  function Run(s: State, ops: seq<Op>): State
    decreases |ops|
  {
    if ops == [] then s else Run(Apply(s, ops[0]), ops[1..])
  }

  /** Every enable() of the run happens when nothing runs. */
  predicate EnabledIdle(s: State, ops: seq<Op>)
    decreases |ops|
  {
    ops != [] ==> (ops[0].DoEnable? ==> NothingRuns(s)) && EnabledIdle(Apply(s, ops[0]), ops[1..])
  }

  /** A stream's calls have stopped alternating, or the instance runs uncounted. */
  predicate Broken(s: State, stream: Stream) {
    || !Alternates(Seen(s.calls, stream))
    || (Running(s.calls, stream) && s.Counter(stream) <= 0)
  }

  /** A call that follows broken alternation, or a second start in a row. */
  lemma StillNotAlternating(before: seq<bool>, b: bool)
    requires !Alternates(before) || (b && before != [] && before[|before| - 1])
    ensures !Alternates(before + [b])
  {
    var after := before + [b];
    if !Alternates(before) {
      var i :| 0 <= i < |before| && (before[i] <==> i % 2 != 0);
      assert after[i] == before[i];
    } else {
      assert after[|before| - 1] && after[|before|];
    }
  }

  lemma BrokenAfter(s: State, s': State, stream: Stream, extra: seq<bool>)
    requires Broken(s, stream) && |extra| <= 1
    requires Seen(s'.calls, stream) == Seen(s.calls, stream) + extra
    requires extra == [] ==> s'.Counter(stream) <= 0 || s.Counter(stream) > 0
    requires extra != [] && Alternates(Seen(s.calls, stream)) ==> extra[0]
    ensures Broken(s', stream)
  {
    var before := Seen(s.calls, stream);
    if extra == [] {
      assert before + extra == before;
    } else {
      assert extra == [extra[0]];
      StillNotAlternating(before, extra[0]);
    }
  }

  lemma BrokenStays(s: State, op: Op, stream: Stream)
    requires Broken(s, stream)
    ensures Broken(Apply(s, op), stream)
  {
    var s' := Apply(s, op);
    match op
    case DoStart(st) =>
      SeenAppend(s.calls, if s.Counter(st) == 0 then [Start(st)] else [], stream);
      BrokenAfter(s, s', stream, if s.Counter(st) == 0 && st == stream then [true] else []);
    case DoStop(st) =>
      SeenAppend(s.calls, if s.Counter(st) == 1 then [Stop(st)] else [], stream);
      BrokenAfter(s, s', stream, if s.Counter(st) == 1 && st == stream then [false] else []);
    case DoDisable =>
      SeenDisable(s, stream);
      BrokenAfter(s, s', stream, if s.Counter(stream) > 0 then [false] else []);
    case DoEnable =>
  }

  lemma {:induction false} RunStaysBroken(s: State, ops: seq<Op>, stream: Stream)
    requires Broken(s, stream)
    ensures !StreamOk(Run(s, ops), stream)
    decreases |ops|
  {
    if ops != [] {
      BrokenStays(s, ops[0], stream);
      RunStaysBroken(Apply(s, ops[0]), ops[1..], stream);
    }
  }

  lemma {:induction false} RunKeepsIff(s: State, ops: seq<Op>)
    requires Ok(s)
    ensures Ok(Run(s, ops)) <==> EnabledIdle(s, ops)
    decreases |ops|
  {
    if ops != [] {
      ApplyKeeps(s, ops[0]);
      if ops[0].DoEnable? && !NothingRuns(s) {
        var stream := if s.position > 0 then Position else if s.heading > 0 then Heading else Velocity;
        assert StreamOk(s, stream) && Broken(Apply(s, ops[0]), stream);
        RunStaysBroken(Apply(s, ops[0]), ops[1..], stream);
      } else {
        RunKeepsIff(Apply(s, ops[0]), ops[1..]);
      }
    }
  }

  /** A run leaves start and stop strictly in turn on every stream, the stream running exactly while its counter
      is positive and no counter below -1, if and only if every enable() came when nothing ran: an enable()
      over a running stream is never repaired. */
  lemma AlternationIff(ops: seq<Op>)
    ensures EnabledIdle(FRESH, ops) <==> Ok(Run(FRESH, ops))
  {
    forall st: Stream
      ensures StreamOk(FRESH, st)
    {
      assert FRESH.Counter(st) == 0 && Seen(FRESH.calls, st) == [];
    }
    RunKeepsIff(FRESH, ops);
  }

  // --- Counting ----------------------------------------------------------------------------

  function Starts(ops: seq<Op>, stream: Stream): nat {
    if ops == [] then 0 else Starts(ops[..|ops| - 1], stream) + if ops[|ops| - 1] == DoStart(stream) then 1 else 0
  }

  function Stops(ops: seq<Op>, stream: Stream): nat {
    if ops == [] then 0 else Stops(ops[..|ops| - 1], stream) + if ops[|ops| - 1] == DoStop(stream) then 1 else 0
  }

  /** Some prefix asks for more stops than there were holders at first and starts since. */
  predicate Underruns(first: int, ops: seq<Op>, stream: Stream) {
    exists k :: 0 <= k <= |ops| && Stops(ops[..k], stream) > first + Starts(ops[..k], stream)
  }

  predicate OnlyRequests(ops: seq<Op>) { forall i :: 0 <= i < |ops| ==> ops[i].DoStart? || ops[i].DoStop? }

  lemma UnderrunsNext(first: int, ops: seq<Op>, stream: Stream)
    requires ops != []
    ensures Underruns(first, ops, stream) <==>
              Underruns(first, ops[..|ops| - 1], stream) || Stops(ops, stream) > first + Starts(ops, stream)
  {
    var g := ops[..|ops| - 1];
    assert ops[..|ops|] == ops;
    assert forall k :: 0 <= k <= |g| ==> g[..k] == ops[..k];
    if Underruns(first, ops, stream) {
      var k :| 0 <= k <= |ops| && Stops(ops[..k], stream) > first + Starts(ops[..k], stream);
      assert k < |ops| ==> g[..k] == ops[..k];
    }
  }

  lemma {:induction false} RunAppend(s: State, ops: seq<Op>, more: seq<Op>)
    ensures Run(s, ops + more) == Run(Run(s, ops), more)
    decreases |ops|
  {
    if ops == [] {
      assert ops + more == more;
    } else {
      assert (ops + more)[1..] == ops[1..] + more;
      RunAppend(Apply(s, ops[0]), ops[1..], more);
    }
  }

  /** Over requests alone the counter counts: its first value plus the starts minus the stops of its stream,
      until a stop too many disables the stream for good. */
  lemma {:induction false} CounterCounts(s: State, ops: seq<Op>, stream: Stream)
    requires s.Counter(stream) >= 0 && OnlyRequests(ops)
    ensures Run(s, ops).Counter(stream) ==
              if Underruns(s.Counter(stream), ops, stream) then DISABLED
              else s.Counter(stream) + Starts(ops, stream) - Stops(ops, stream)
    decreases |ops|
  {
    var c := s.Counter(stream);
    if ops == [] {
      assert ops[..0] == [];
    } else {
      var g := ops[..|ops| - 1];
      var last := ops[|ops| - 1];
      CounterCounts(s, g, stream);
      UnderrunsNext(c, ops, stream);
      assert g + [last] == ops;
      RunAppend(s, g, [last]);
      assert [last][1..] == [];
      assert Run(Run(s, g), [last]) == Run(Apply(Run(s, g), last), []);
      if !Underruns(c, g, stream) {
        assert g[..|g|] == g;
        assert Stops(g, stream) <= c + Starts(g, stream);
      }
    }
  }

  /** What the last enable() or disable() of a run, and the requests after it, make of a counter. */
  lemma CountsSinceReset(s: State, before: seq<Op>, reset: Op, after: seq<Op>, stream: Stream)
    requires (reset.DoEnable? || reset.DoDisable?) && OnlyRequests(after)
    ensures Run(s, before + [reset] + after).Counter(stream) ==
              if reset.DoDisable? || Underruns(0, after, stream) then DISABLED
              else Starts(after, stream) - Stops(after, stream)
  {
    RunAppend(s, before + [reset], after);
    RunAppend(s, before, [reset]);
    var s0 := Run(s, before);
    assert [reset][1..] == [];
    assert Run(s0, [reset]) == Run(Apply(s0, reset), []);
    if reset.DoEnable? {
      CounterCounts(Apply(s0, reset), after, stream);
    } else {
      StaysDisabled(Apply(s0, reset), after, stream);
    }
  }

  lemma {:induction false} StaysDisabled(s: State, ops: seq<Op>, stream: Stream)
    requires s.Counter(stream) == DISABLED && OnlyRequests(ops)
    ensures Run(s, ops).Counter(stream) == DISABLED
    decreases |ops|
  {
    if ops != [] {
      StaysDisabled(Apply(s, ops[0]), ops[1..], stream);
    }
  }

  /** So on a fresh controller the instance delivers a stream exactly while its starts exceed its stops. */
  lemma RunsWhileHeld(ops: seq<Op>, stream: Stream)
    requires OnlyRequests(ops) && !Underruns(0, ops, stream)
    ensures Running(Run(FRESH, ops).calls, stream) <==> Starts(ops, stream) > Stops(ops, stream)
  {
    CounterCounts(FRESH, ops, stream);
    RequestsAreIdle(FRESH, ops);
    AlternationIff(ops);
    assert StreamOk(Run(FRESH, ops), stream);
  }

  lemma {:induction false} RequestsAreIdle(s: State, ops: seq<Op>)
    requires OnlyRequests(ops)
    ensures EnabledIdle(s, ops)
    decreases |ops|
  {
    if ops != [] {
      RequestsAreIdle(Apply(s, ops[0]), ops[1..]);
    }
  }

  /** From disable() to the next enable() nothing reaches the instance, whatever is requested. */
  lemma DisableSilences(s: State, ops: seq<Op>)
    requires forall i :: 0 <= i < |ops| ==> !ops[i].DoEnable?
    ensures Run(Apply(s, DoDisable), ops).calls == Apply(s, DoDisable).calls
  {
    SilentWhileDisabled(Apply(s, DoDisable), ops);
  }

  /** With every counter at the sentinel nothing reaches the instance. */
  lemma {:induction false} SilentWhileDisabled(s: State, ops: seq<Op>)
    requires s.position < 0 && s.heading < 0 && s.velocity < 0
    requires forall i :: 0 <= i < |ops| ==> !ops[i].DoEnable?
    ensures Run(s, ops).calls == s.calls
    decreases |ops|
  {
    if ops != [] {
      var s' := Apply(s, ops[0]);
      assert s'.calls == s.calls;
      SilentWhileDisabled(s', ops[1..]);
    }
  }

  /** A stop that matches no start leaves the sentinel behind: from then on, until enable(),
      no request makes the instance see another call on that stream. */
  lemma {:induction false} UnmatchedStopDeafens(s: State, ops: seq<Op>, stream: Stream)
    requires s.Counter(stream) == 0 || s.Counter(stream) == DISABLED
    requires forall i :: 0 <= i < |ops| ==> !ops[i].DoEnable?
    requires s.Counter(stream) == 0 ==> ops != [] && ops[0] == DoStop(stream)
    ensures Seen(Run(s, ops).calls, stream) == Seen(s.calls, stream)
    decreases |ops|
  {
    if ops != [] {
      var s' := Apply(s, ops[0]);
      match ops[0] {
        case DoStart(st) =>
          SeenAppend(s.calls, if s.Counter(st) == 0 then [Start(st)] else [], stream);
        case DoStop(st) =>
          SeenAppend(s.calls, if s.Counter(st) == 1 then [Stop(st)] else [], stream);
        case DoDisable =>
          SeenDisable(s, stream);
        case DoEnable =>
      }
      assert s'.Counter(stream) == DISABLED;
      UnmatchedStopDeafens(s', ops[1..], stream);
    }
  }

  /** disable() stops exactly the running streams and leaves nothing running. */
  lemma DisableStopsAll(s: State, stream: Stream)
    requires Ok(s)
    ensures var s' := Apply(s, DoDisable);
            !Running(s'.calls, stream)
            && |Seen(s'.calls, stream)| == |Seen(s.calls, stream)| + if Running(s.calls, stream) then 1 else 0
  {
    assert StreamOk(s, stream);
    SeenDisable(s, stream);
  }

  lemma RunThree(s: State, a: Op, b: Op, c: Op)
    ensures Run(s, [a, b, c]) == Apply(Apply(Apply(s, a), b), c)
  {
    var s1 := Apply(s, a);
    var s2 := Apply(s1, b);
    var s3 := Apply(s2, c);
    assert [a, b, c][1..] == [b, c] && [b, c][1..] == [c] && [c][1..] == [];
    assert Run(s3, []) == s3;
    assert Run(s2, [c]) == Run(s3, []);
    assert Run(s1, [b, c]) == Run(s2, [c]);
    assert Run(s, [a, b, c]) == Run(s1, [b, c]);
  }

  /** enable() while a stream runs loses count of it: the next start reaches the instance twice in a row. */
  lemma EnableWhileRunningRestarts(stream: Stream)
    ensures var s := Run(FRESH, [DoStart(stream), DoEnable, DoStart(stream)]);
            s.calls == [Start(stream), Start(stream)] && !Alternates(Seen(s.calls, stream))
  {
    RunThree(FRESH, DoStart(stream), DoEnable, DoStart(stream));
    SeenAppend([], [Start(stream)], stream);
    SeenAppend([Start(stream)], [Start(stream)], stream);
    assert [] + [Start(stream)] == [Start(stream)];
    assert [Start(stream)] + [Start(stream)] == [Start(stream), Start(stream)];
    assert Seen([Start(stream), Start(stream)], stream)[1];
  }
}
