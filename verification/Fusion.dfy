/** FusionProvider with the newer-or-more-accurate selector: several position sources, one published stream. */
module Fusion {
  import opened Prelude
  import opened Types

  datatype Sourced = Sourced(source: nat, update: Update<Position>)

  /** The selector's cutoff, 11 s in units of the clock (ns). */
  const CUTOFF: int := 11_000_000_000

  function Accuracy(p: Sourced): Option<real> { p.update.value.horizontal }

  /** NewerOrMoreAccurateUpdateSelector::select(). */
  function Select(older: Sourced, newer: Sourced): Sourced {
    if newer.source == older.source then newer
    else if newer.update.when > older.update.when + CUTOFF then newer
    else if Accuracy(older).None? then newer
    else if Accuracy(newer).None? then older
    else if Accuracy(newer).value < Accuracy(older).value then newer
    else older
  }

  class FusionProvider {
    var lastPosition: Option<Sourced>
    /** What the position signal has delivered. */
    var published: seq<Update<Position>>
    /** What the sources have reported. */
    ghost var received: seq<Sourced>

    ghost predicate Valid()
      reads this
    {
      && lastPosition == (if received == [] then None else Some(Held(received)))
      && |published| == |received|
      && forall k :: 0 <= k < |received| ==> published[k] == Held(received[..k + 1]).update
    }

    constructor ()
      ensures Valid() && received == []
    {
      lastPosition, published, received := None, [], [];
    }

    /** The position slot of one source. */
    method OnPosition(source: nat, u: Update<Position>)
      requires Valid()
      modifies this
      ensures Valid() && received == old(received) + [Sourced(source, u)]
      ensures old(published) <= published
    {
      if lastPosition.None? {
        lastPosition := Some(Sourced(source, u));
      } else {
        lastPosition := Some(Select(lastPosition.value, Sourced(source, u)));
      }
      published := published + [lastPosition.value.update];
      ghost var before := received;
      received := received + [Sourced(source, u)];
      assert received[..|before|] == before && received[..|before| + 1] == received;
      forall k | 0 <= k < |before|
        ensures published[k] == Held(received[..k + 1]).update
      {
        assert received[..k + 1] == before[..k + 1];
      }
    }
  }

  /** The position held after the sequence h of received positions; it is also the one published. */
  function Held(h: seq<Sourced>): Sourced
    requires h != []
  {
    if |h| == 1 then h[0] else Select(Held(h[..|h| - 1]), h[|h| - 1])
  }

  predicate Chronological(h: seq<Sourced>) {
    forall i, j :: 0 <= i < j < |h| ==> h[i].update.when <= h[j].update.when
  }

  /** What later positions may not be for j to stay: from the same source, newer than the cutoff,
      or, once j's accuracy is known, more accurate; and j's accuracy must be known. */
  predicate Survives(h: seq<Sourced>, j: nat)
    requires j < |h|
  {
    forall i :: j < i < |h| ==>
      && h[i].source != h[j].source
      && h[i].update.when <= h[j].update.when + CUTOFF
      && Accuracy(h[j]).Some?
      && (Accuracy(h[i]).Some? ==> Accuracy(h[j]).value <= Accuracy(h[i]).value)
  }

  /** j took over from what was held before it. */
  predicate TakesOver(h: seq<Sourced>, j: nat)
    requires j < |h|
  {
    j == 0 || Select(Held(h[..j]), h[j]) == h[j]
  }

  /** Refinement: the held position is one received position that took over when it came and that no
      later one has beaten. */
  lemma {:induction false} HeldIsUnbeaten(h: seq<Sourced>) returns (j: nat)
    requires h != []
    ensures j < |h| && Held(h) == h[j] && TakesOver(h, j) && Survives(h, j)
  {
    var n := |h| - 1;
    if n == 0 {
      j := 0;
    } else {
      var g := h[..n];
      var i := HeldIsUnbeaten(g);
      assert g[..i] == h[..i];
      if Select(h[i], h[n]) == h[n] {
        j := n;
      } else {
        j := i;
      }
    }
  }

  /** The converse: a received position that took over and that nothing later has beaten is the held one. */
  lemma {:induction false} UnbeatenIsHeld(h: seq<Sourced>, j: nat)
    requires j < |h| && TakesOver(h, j) && Survives(h, j)
    ensures Held(h) == h[j]
  {
    var n := |h| - 1;
    if j == n {
    } else {
      var g := h[..n];
      assert g[..j] == h[..j];
      UnbeatenIsHeld(g, j);
    }
  }

  /** A position of the same source, or one more than 11 s newer, always takes over. */
  lemma AlwaysTakesOver(h: seq<Sourced>)
    requires |h| > 1
    ensures var before, last := Held(h[..|h| - 1]), h[|h| - 1];
            last.source == before.source || last.update.when > before.update.when + 11_000_000_000 ==> Held(h) == last
  {
  }

  /** Freshness: published time stamps never go back, and no published position is more than
      11 s behind the newest received. */
  lemma Freshness(h: seq<Sourced>)
    requires h != [] && Chronological(h)
    ensures h[|h| - 1].update.when - Held(h).update.when <= 11 * 1_000_000_000
    ensures |h| > 1 ==> Held(h[..|h| - 1]).update.when <= Held(h).update.when
  {
    var j := HeldIsUnbeaten(h);
    if |h| > 1 {
      var i := HeldIsUnbeaten(h[..|h| - 1]);
    }
  }

  /** Without a gap beyond the cutoff, switching to another source replaces a known accuracy only by
      a strictly better one. */
  lemma SwitchNeverLosesAccuracy(h: seq<Sourced>)
    requires |h| > 1
    ensures var before, after := Held(h[..|h| - 1]), Held(h);
            after.source != before.source
            && after.update.when <= before.update.when + 11_000_000_000 && Accuracy(before).Some?
            ==> Accuracy(after).Some? && Accuracy(after).value < Accuracy(before).value
  {
  }
}
