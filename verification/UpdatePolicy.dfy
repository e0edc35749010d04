/** TimeBasedUpdatePolicy: which of the received positions the engine takes as the current one. */
module UpdatePolicy {
  import opened Prelude
  import opened Types

  type PositionUpdate = Update<Position>

  predicate IsSignificantlyNewer(last: PositionUpdate, update: PositionUpdate, limit: int) {
    update.when - last.when > limit
  }

  predicate IsSignificantlyOlder(last: PositionUpdate, update: PositionUpdate, limit: int) {
    update.when - last.when < -1 * limit
  }

  /** The update held after offering another one. */
  function Chosen(last: PositionUpdate, update: PositionUpdate, limit: int): PositionUpdate {
    if IsSignificantlyNewer(last, update, limit) then update
    else if IsSignificantlyOlder(last, update, limit) then last
    else
      var held, offered := last.value.horizontal, update.value.horizontal;
      if held.None? || (offered.Some? && held.value >= offered.value) then update else last
  }

  class TimeBasedUpdatePolicy {
    var lastPositionUpdate: PositionUpdate
    const limit: int
    /** The initial update and everything offered since. */
    ghost var history: seq<PositionUpdate>

    ghost predicate Valid()
      reads this
    {
      history != [] && lastPositionUpdate == Held(history, limit)
    }

    /** The member starts as a default position stamped with the time of construction. */
    constructor (limit: int, now: int)
      ensures Valid() && history == [Initial(now)] && this.limit == limit
    {
      this.limit := limit;
      lastPositionUpdate := Initial(now);
      history := [Initial(now)];
    }

    method VerifyUpdate(update: PositionUpdate) returns (r: PositionUpdate)
      requires Valid()
      modifies this
      ensures Valid() && history == old(history) + [update]
      ensures r == lastPositionUpdate == Chosen(old(lastPositionUpdate), update, limit)
    {
      var useNewUpdate: bool;
      if IsSignificantlyNewer(lastPositionUpdate, update, limit) {
        useNewUpdate := true;
      } else if IsSignificantlyOlder(lastPositionUpdate, update, limit) {
        useNewUpdate := false;
      } else {
        var held, offered := lastPositionUpdate.value.horizontal, update.value.horizontal;
        useNewUpdate := held.None? || (offered.Some? && held.value >= offered.value);
      }
      assert (history + [update])[..|history|] == history;
      history := history + [update];
      if useNewUpdate {
        lastPositionUpdate := update;
        r := update;
      } else {
        r := lastPositionUpdate;
      }
    }
  }

  function Initial(now: int): PositionUpdate {
    Update(Position(0.0, 0.0, None, None, None), now)
  }

  // --- The policy over a whole history -----------------------------------------------------

  /** What is held after the history h, whose first entry is the initial update. */
  function Held(h: seq<PositionUpdate>, limit: int): PositionUpdate
    requires h != []
  {
    if |h| == 1 then h[0] else Chosen(Held(h[..|h| - 1], limit), h[|h| - 1], limit)
  }

  predicate Chronological(h: seq<PositionUpdate>) {
    forall i, j :: 0 <= i < j < |h| ==> h[i].when <= h[j].when
  }

  function Accuracy(h: seq<PositionUpdate>, i: nat): Option<real>
    requires i < |h|
  {
    h[i].value.horizontal
  }

  /** j is the latest most accurate entry from s on; the last entry if none carries an accuracy. */
  predicate IsBest(h: seq<PositionUpdate>, s: nat, j: nat) {
    && s <= j < |h|
    && if Accuracy(h, j).None? then
         j == |h| - 1 && forall i :: s <= i < |h| ==> Accuracy(h, i).None?
       else
         && (forall i :: s <= i < |h| && Accuracy(h, i).Some? ==> Accuracy(h, j).value <= Accuracy(h, i).value)
         && (forall i :: j < i < |h| && Accuracy(h, i).Some? ==> Accuracy(h, j).value < Accuracy(h, i).value)
  }

  /** Entry |h| - 1 is more than the limit newer than the best entry before it, counted from s. */
  ghost predicate Jumps(h: seq<PositionUpdate>, s: nat, limit: int)
    requires |h| > 1
  {
    exists j: nat :: IsBest(h[..|h| - 1], s, j) && h[|h| - 1].when - h[j].when > limit
  }

  /** The last jump in the history; the beginning if there was none. */
  ghost function LastJump(h: seq<PositionUpdate>, limit: int): (s: nat)
    requires h != []
    ensures s < |h|
  {
    if |h| == 1 then 0
    else
      var s := LastJump(h[..|h| - 1], limit);
      if Jumps(h, s, limit) then |h| - 1 else s
  }

  /** In any history whatever, an update more than the limit older never replaces what is held, and one
      more than the limit newer always does. */
  lemma BeyondTheLimit(h: seq<PositionUpdate>, limit: int)
    requires |h| > 1 && limit >= 0
    ensures var held, offered := Held(h[..|h| - 1], limit), h[|h| - 1];
            && (offered.when < held.when - limit ==> Held(h, limit) == held)
            && (offered.when > held.when + limit ==> Held(h, limit) == offered)
  {
  }

  /** Two minutes, in units of the clock (ns). */
  const DEFAULT_LIMIT: int := 120_000_000_000

  /** By default what is held lags the newest update by at most two minutes, and the first real update, when it
      is not older than the policy itself, replaces the initial one. */
  lemma DefaultLag(h: seq<PositionUpdate>, now: int)
    requires h != [] && Chronological(h)
    ensures h[|h| - 1].when - Held(h, DEFAULT_LIMIT).when <= 2 * 60 * 1_000_000_000
    ensures |h| == 2 && h[0] == Initial(now) ==> h[0].when == now && Held(h, DEFAULT_LIMIT) == h[1]
  {
    var j := HeldIsBestSinceJump(h, DEFAULT_LIMIT);
    if |h| == 2 {
      assert h[..1][0] == h[0];
      assert Held(h[..1], DEFAULT_LIMIT) == h[0];
    }
  }

  /** There is only one best entry. */
  lemma BestIsUnique(h: seq<PositionUpdate>, s: nat, i: nat, j: nat)
    requires IsBest(h, s, i) && IsBest(h, s, j)
    ensures i == j
  {
  }

  /** Offering one more update to the best of a segment yields the best of the longer segment. */
  lemma BestExtends(h: seq<PositionUpdate>, s: nat, j: nat, limit: int)
    requires |h| > 1 && limit >= 0 && Chronological(h)
    requires IsBest(h[..|h| - 1], s, j) && h[|h| - 1].when - h[j].when <= limit
    ensures var n := |h| - 1;
            || (Chosen(h[j], h[n], limit) == h[n] && IsBest(h, s, n))
            || (Chosen(h[j], h[n], limit) == h[j] && IsBest(h, s, j))
  {
    var n := |h| - 1;
    var g := h[..n];
    assert forall i :: s <= i < n ==> Accuracy(h, i) == Accuracy(g, i);
  }

  /** For every chronological history, the one-pass update holds the latest most accurate update
      received since the last jump beyond the limit, or the latest one if none carried an accuracy;
      what it holds lags the newest by at most the limit. */
  lemma {:induction false} HeldIsBestSinceJump(h: seq<PositionUpdate>, limit: int) returns (j: nat)
    requires h != [] && limit >= 0 && Chronological(h)
    ensures IsBest(h, LastJump(h, limit), j)
    ensures Held(h, limit) == h[j]
    ensures h[|h| - 1].when - Held(h, limit).when <= limit
  {
    var n := |h| - 1;
    if n == 0 {
      j := 0;
    } else {
      var g := h[..n];
      var i := HeldIsBestSinceJump(g, limit);
      var s := LastJump(g, limit);
      if h[n].when - h[i].when > limit {
        assert Jumps(h, s, limit);
        j := n;
      } else {
        forall k | IsBest(g, s, k)
          ensures k == i
        {
          BestIsUnique(g, s, k, i);
        }
        assert !Jumps(h, s, limit);
        BestExtends(h, s, i, limit);
        j := if Chosen(h[i], h[n], limit) == h[n] && IsBest(h, s, n) then n else i;
      }
    }
  }

  /** The time stamp of what is held never goes back. */
  lemma HeldNeverGoesBack(h: seq<PositionUpdate>, limit: int)
    requires |h| > 1 && limit >= 0 && Chronological(h)
    ensures Held(h[..|h| - 1], limit).when <= Held(h, limit).when
  {
    var j := HeldIsBestSinceJump(h[..|h| - 1], limit);
  }

  /** Within one segment what is held never loses accuracy. */
  lemma HeldNeverLosesAccuracy(h: seq<PositionUpdate>, limit: int)
    requires |h| > 1 && limit >= 0 && Chronological(h)
    requires LastJump(h, limit) != |h| - 1
    ensures var before, after := Held(h[..|h| - 1], limit).value.horizontal, Held(h, limit).value.horizontal;
            before.Some? ==> after.Some? && after.value <= before.value
  {
    var i := HeldIsBestSinceJump(h[..|h| - 1], limit);
    var j := HeldIsBestSinceJump(h, limit);
    assert Accuracy(h, i) == Accuracy(h[..|h| - 1], i);
  }
}
