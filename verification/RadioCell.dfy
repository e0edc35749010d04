/** CachedRadioCell: reports about the serving cell, kept in a union of three technology views. */
module RadioCell {
  import opened Prelude

  const INT_MAX: int := 0x7FFF_FFFF

  type uint32 = x: int | 0 <= x < 0x1_0000_0000

  /** A cell that was fully constructed is never of unknown type. */
  datatype Technology = Gsm | Umts | Lte

  // The union's storage: all three views have MCC, MNC, area code and id in the same places;
  // LTE has a physical id where the others keep the strength, and its strength comes after it.
  const MCC: nat := 0
  const MNC: nat := 1
  const AREA: nat := 2
  const ID: nat := 3
  const PHYSICAL_ID: nat := 4
  const SLOTS: nat := 6

  function StrengthSlot(t: Technology): nat { if t.Lte? then 5 else 4 }

  function IdMaximum(t: Technology): int { if t.Gsm? then 65535 else 268435455 }

  const INVALID_STRENGTH: int := 99

  const CODE_MAXIMUM: int := 999
  const AREA_MAXIMUM: int := 65535

  predicate CodeValid(v: int) { 0 <= v <= CODE_MAXIMUM }

  predicate AreaValid(v: int) { 0 <= v <= AREA_MAXIMUM }

  predicate IdValid(t: Technology, v: int) { 0 <= v <= IdMaximum(t) }

  predicate PhysicalIdValid(v: int) { 0 <= v <= 503 }

  predicate StrengthValid(v: int) { 0 <= v <= 31 }

  /** The conversion of a uint32_t argument to int. */
  function AsInt(v: uint32): int { if v > INT_MAX then v - 0x1_0000_0000 else v }

  /** SignalStrength::from_percent(percent / 100): capped, scaled to 0..31, fraction dropped. */
  function FromPercent(percent: int): (r: int)
    ensures StrengthValid(r)
  {
    var capped := if percent < 0 then 0 else if percent > 100 then 100 else percent;
    capped * 31 / 100
  }

  /** A property change of the network registration, or the invalidation timer. A technology name
      that is unknown to the service arrives as None; codes arrive parsed, -1 if they do not parse.
      A timer that is not running cannot expire. */
  datatype Report =
    | TechnologyIs(t: Option<Technology>)
    | CellIdIs(id: uint32)
    | AreaCodeIs(area: int)
    | CountryCodeIs(code: int)
    | NetworkCodeIs(code: int)
    | StrengthIs(percent: int)
    | StatusIs(isRoaming: bool)
    | TimerExpired

  datatype Cell = Cell(
    slots: seq<int>, radioType: Technology, roaming: bool, valid: bool,
    armed: bool, notifications: nat, needed: bool, alsoGsm: bool)

  function Strength(c: Cell): int
    requires |c.slots| == SLOTS
  {
    c.slots[StrengthSlot(c.radioType)]
  }

  predicate DetailsValid(c: Cell)
    requires |c.slots| == SLOTS
  {
    && CodeValid(c.slots[MCC]) && CodeValid(c.slots[MNC]) && AreaValid(c.slots[AREA])
    && IdValid(c.radioType, c.slots[ID])
    && (c.radioType.Lte? ==> PhysicalIdValid(c.slots[PHYSICAL_ID]))
    && StrengthValid(Strength(c))
  }

  // --- What a report does ------------------------------------------------------------------

  /** changed() is emitted only while the cell is deemed valid. */
  function Notified(c: Cell): Cell { c.(notifications := c.notifications + if c.valid then 1 else 0) }

  /** After a change of the cell's identity: where the heuristics apply, the timer starts anew and the
      cell is as valid as its details. */
  function Judged(c: Cell): Cell
    requires |c.slots| == SLOTS
  {
    if c.needed && (c.radioType.Umts? || c.alsoGsm) then c.(valid := DetailsValid(c), armed := true) else c
  }

  /** An identity report: outside 0..maximum it throws and leaves the cell alone. */
  function Identified(c: Cell, slot: nat, v: int, maximum: int): Cell
    requires |c.slots| == SLOTS && slot < SLOTS
  {
    if 0 <= v <= maximum then Judged(Notified(c.(slots := c.slots[slot := v]))) else c
  }

  /** The report is refused by an exception. */
  predicate Throws(c: Cell, r: Report) {
    match r
    case CellIdIs(id) => !IdValid(c.radioType, AsInt(id))
    case AreaCodeIs(area) => !AreaValid(area)
    case CountryCodeIs(code) => !CodeValid(code)
    case NetworkCodeIs(code) => !CodeValid(code)
    case _ => false
  }

  /** Switching keeps codes and area and forgets id and strength. */
  function Switched(c: Cell, t: Technology): Cell
    requires |c.slots| == SLOTS
  {
    c.(slots := c.slots[ID := INT_MAX][StrengthSlot(t) := INVALID_STRENGTH], radioType := t)
  }

  function Apply(c: Cell, r: Report): (c': Cell)
    requires |c.slots| == SLOTS
    ensures |c'.slots| == SLOTS && c'.needed == c.needed && c'.alsoGsm == c.alsoGsm
  {
    match r
    case TechnologyIs(t) =>
      if t.None? || t.value == c.radioType then c else Judged(Notified(Switched(c, t.value)))
    case CellIdIs(id) => Identified(c, ID, AsInt(id), IdMaximum(c.radioType))
    case AreaCodeIs(area) => Identified(c, AREA, area, AREA_MAXIMUM)
    case CountryCodeIs(code) => Identified(c, MCC, code, CODE_MAXIMUM)
    case NetworkCodeIs(code) => Identified(c, MNC, code, CODE_MAXIMUM)
    case StrengthIs(percent) =>
      Notified(c.(slots := c.slots[StrengthSlot(c.radioType) := FromPercent(percent)]))
    case StatusIs(isRoaming) => c.(roaming := isRoaming)
    case TimerExpired => if c.armed then c.(valid := false, armed := false) else c
  }

  /** A cell just constructed; LTE's physical id is default-constructed. */
  function Constructed(t: Technology, mcc: int, mnc: int, area: int, id: int, percent: int,
                       isRoaming: bool, needed: bool, alsoGsm: bool): (c: Cell)
    ensures |c.slots| == SLOTS
  {
    var strength := FromPercent(percent);
    var slots := if t.Lte? then [mcc, mnc, area, id, -1, strength] else [mcc, mnc, area, id, strength, 0];
    Judged(Cell(slots, t, isRoaming, true, false, 0, needed, alsoGsm))
  }

  predicate Constructible(t: Technology, mcc: int, mnc: int, area: int, id: int) {
    CodeValid(mcc) && CodeValid(mnc) && AreaValid(area) && IdValid(t, id)
  }

  // --- The object --------------------------------------------------------------------------

  class CachedRadioCell {
    const detail: array<int>
    var radioType: Technology
    var roaming: bool
    var valid: bool
    var armed: bool
    var notifications: nat
    const needed: bool
    const alsoGsm: bool

    function View(): Cell
      reads this, detail
    {
      Cell(detail[..], radioType, roaming, valid, armed, notifications, needed, alsoGsm)
    }

    predicate Valid()
      reads this
    {
      detail.Length == SLOTS
    }

    /** The parameters are in range: the BoundedInteger constructors throw otherwise. */
    constructor (t: Technology, mcc: int, mnc: int, area: int, id: int, percent: int,
                 isRoaming: bool, needed: bool, alsoGsm: bool)
      requires Constructible(t, mcc, mnc, area, id)
      ensures Valid() && fresh(detail)
      ensures View() == Constructed(t, mcc, mnc, area, id, percent, isRoaming, needed, alsoGsm)
    {
      detail := new int[SLOTS](i => 0);
      radioType, roaming, valid, armed, notifications := t, isRoaming, true, false, 0;
      this.needed, this.alsoGsm := needed, alsoGsm;
      new;
      detail[MCC] := mcc;
      detail[MNC] := mnc;
      detail[AREA] := area;
      detail[ID] := id;
      if t.Lte? {
        detail[PHYSICAL_ID] := -1;
      }
      detail[StrengthSlot(t)] := FromPercent(percent);
      assert detail[..] == Constructed(t, mcc, mnc, area, id, percent, isRoaming, needed, alsoGsm).slots;
      ExecuteCellChangeHeuristics();
    }

    method IsCellDetailsValid() returns (r: bool)
      requires Valid()
      ensures r == DetailsValid(View())
    {
      var codes := CodeValid(detail[MCC]) && CodeValid(detail[MNC]) && AreaValid(detail[AREA]);
      match radioType
      case Gsm => r := codes && IdValid(Gsm, detail[ID]) && StrengthValid(detail[4]);
      case Umts => r := codes && IdValid(Umts, detail[ID]) && StrengthValid(detail[4]);
      case Lte => r := codes && IdValid(Lte, detail[ID]) && PhysicalIdValid(detail[4]) && StrengthValid(detail[5]);
    }

    method ExecuteCellChangeHeuristics()
      requires Valid()
      modifies this
      ensures View() == Judged(old(View()))
    {
      if needed && (radioType.Umts? || alsoGsm) {
        armed := true;
        var v := IsCellDetailsValid();
        valid := v;
      }
    }

    method Notify()
      modifies this`notifications
      ensures notifications == old(notifications) + if valid then 1 else 0
    {
      if valid {
        notifications := notifications + 1;
      }
    }

    /** The nested switch over old and new technology, field by field through the two views. */
    method CopyDetails(t: Technology)
      requires Valid() && t != radioType
      modifies detail
      ensures detail[..] == old(detail[..])[ID := INT_MAX][StrengthSlot(t) := INVALID_STRENGTH]
    {
      match radioType
      case Gsm =>
        match t {
          case Umts => CopyFields(4);
          case Lte => CopyFields(5);
          case Gsm =>
        }
      case Umts =>
        match t {
          case Gsm => CopyFields(4);
          case Lte => CopyFields(5);
          case Umts =>
        }
      case Lte =>
        match t {
          case Gsm => CopyFields(4);
          case Umts => CopyFields(4);
          case Lte =>
        }
    }

    /** Area, network and country code move between views that share their storage. */
    method CopyFields(newStrength: nat)
      requires Valid() && 4 <= newStrength < SLOTS
      modifies detail
      ensures detail[..] == old(detail[..])[ID := INT_MAX][newStrength := INVALID_STRENGTH]
    {
      detail[AREA] := detail[AREA];
      detail[MNC] := detail[MNC];
      detail[MCC] := detail[MCC];
      detail[newStrength] := INVALID_STRENGTH;
      detail[ID] := INT_MAX;
    }

    /** BoundedInteger::set() on one slot; false where it throws. Every minimum is 0. */
    method SetBounded(slot: nat, v: int, maximum: int) returns (ok: bool)
      requires Valid() && slot < SLOTS
      modifies detail
      ensures ok <==> 0 <= v <= maximum
      ensures detail[..] == if ok then old(detail[..])[slot := v] else old(detail[..])
    {
      if v < 0 || v > maximum { return false; }
      detail[slot] := v;
      ok := true;
    }

    /** The branch for the technology: nothing if it is unknown or the same. */
    method OnTechnology(t: Option<Technology>)
      requires Valid()
      modifies this, detail
      ensures View() == Apply(old(View()), TechnologyIs(t))
    {
      if t.None? || t.value == radioType { return; }
      CopyDetails(t.value);
      radioType := t.value;
      Notify();
      ExecuteCellChangeHeuristics();
    }

    /** A branch for one property of the cell's identity: set(), which may throw, then changed() while the
        cell is deemed valid, and the heuristics. */
    method OnIdentity(slot: nat, v: int, maximum: int) returns (completed: bool)
      requires Valid() && slot < SLOTS
      modifies this, detail
      ensures completed <==> 0 <= v <= maximum
      ensures View() == Identified(old(View()), slot, v, maximum)
    {
      completed := SetBounded(slot, v, maximum);
      if completed {
        Notify();
        ExecuteCellChangeHeuristics();
      }
    }

    /** on_network_registration_property_changed(), and the timer; false if it threw. */
    method OnReport(r: Report) returns (completed: bool)
      requires Valid()
      modifies this, detail
      ensures Valid() && View() == Apply(old(View()), r)
      ensures completed <==> !Throws(old(View()), r)
    {
      completed := true;
      match r {
        case TechnologyIs(t) =>
          OnTechnology(t);
        case CellIdIs(id) =>
          completed := OnIdentity(ID, AsInt(id), IdMaximum(radioType));
        case AreaCodeIs(area) =>
          completed := OnIdentity(AREA, area, AREA_MAXIMUM);
        case CountryCodeIs(code) =>
          completed := OnIdentity(MCC, code, CODE_MAXIMUM);
        case NetworkCodeIs(code) =>
          completed := OnIdentity(MNC, code, CODE_MAXIMUM);
        case StrengthIs(percent) =>
          detail[StrengthSlot(radioType)] := FromPercent(percent);
          Notify();
        case StatusIs(isRoaming) =>
          roaming := isRoaming;
        case TimerExpired =>
          if armed {
            valid := false;
            armed := false;
          }
      }
    }
  }

  // --- Runs of reports ---------------------------------------------------------------------

  function Run(c: Cell, rs: seq<Report>): (c': Cell)
    requires |c.slots| == SLOTS
    ensures |c'.slots| == SLOTS && c'.needed == c.needed && c'.alsoGsm == c.alsoGsm
    decreases |rs|
  {
    if rs == [] then c else Apply(Run(c, rs[..|rs| - 1]), rs[|rs| - 1])
  }

  /** The identity fields that survive a technology switch. */
  datatype Code = Country | Network | Area

  function SlotOf(f: Code): nat {
    match f
    case Country => MCC
    case Network => MNC
    case Area => AREA
  }

  predicate InRange(f: Code, v: int) { if f.Area? then AreaValid(v) else CodeValid(v) }

  /** The in-range value of field f that a report carries, if it does. */
  function Carried(r: Report, f: Code): Option<int> {
    match r
    case CountryCodeIs(code) => if f.Country? && CodeValid(code) then Some(code) else None
    case NetworkCodeIs(code) => if f.Network? && CodeValid(code) then Some(code) else None
    case AreaCodeIs(area) => if f.Area? && AreaValid(area) then Some(area) else None
    case _ => None
  }

  /** The last in-range value of f reported, or the one from the construction. */
  function LastReported(rs: seq<Report>, f: Code, first: int): int {
    if rs == [] then first
    else
      var v := Carried(rs[|rs| - 1], f);
      if v.Some? then v.value else LastReported(rs[..|rs| - 1], f, first)
  }

  lemma ApplyToCode(c: Cell, r: Report, f: Code)
    requires |c.slots| == SLOTS
    ensures Apply(c, r).slots[SlotOf(f)] == match Carried(r, f) case Some(v) => v case None => c.slots[SlotOf(f)]
  {
    match r
    case TechnologyIs(_) =>
    case CellIdIs(_) =>
    case AreaCodeIs(_) =>
    case CountryCodeIs(_) =>
    case NetworkCodeIs(_) =>
    case StrengthIs(_) =>
    case StatusIs(_) =>
    case TimerExpired =>
  }

  /** Through any technology switches, the current view shows the last in-range country, network and
      area code reported, so in a fully constructed cell these are always valid. */
  lemma {:induction false} CodesAreLastReported(c: Cell, rs: seq<Report>, f: Code)
    requires |c.slots| == SLOTS && InRange(f, c.slots[SlotOf(f)])
    ensures var v := Run(c, rs).slots[SlotOf(f)];
            v == LastReported(rs, f, c.slots[SlotOf(f)]) && InRange(f, v)
    decreases |rs|
  {
    if rs != [] {
      CodesAreLastReported(c, rs[..|rs| - 1], f);
      ApplyToCode(Run(c, rs[..|rs| - 1]), rs[|rs| - 1], f);
    }
  }

  /** A technology switch leaves the id invalid until an id is reported, whatever else is. */
  lemma {:induction false} IdInvalidUntilReported(c: Cell, t: Technology, rs: seq<Report>)
    requires |c.slots| == SLOTS && t != c.radioType
    requires forall i :: 0 <= i < |rs| ==> !rs[i].CellIdIs?
    ensures var c' := Run(Apply(c, TechnologyIs(Some(t))), rs); !IdValid(c'.radioType, c'.slots[ID])
    decreases |rs|
  {
    assert Apply(c, TechnologyIs(Some(t))).slots[ID] == INT_MAX;
    IdStays(Apply(c, TechnologyIs(Some(t))), rs);
  }

  lemma ApplyToId(c: Cell, r: Report)
    requires |c.slots| == SLOTS && c.slots[ID] == INT_MAX && !r.CellIdIs?
    ensures Apply(c, r).slots[ID] == INT_MAX
  {
    match r
    case TechnologyIs(_) =>
    case AreaCodeIs(_) =>
    case CountryCodeIs(_) =>
    case NetworkCodeIs(_) =>
    case StrengthIs(_) =>
    case StatusIs(_) =>
    case TimerExpired =>
    case _ =>
  }

  lemma {:induction false} IdStays(c: Cell, rs: seq<Report>)
    requires |c.slots| == SLOTS && c.slots[ID] == INT_MAX
    requires forall i :: 0 <= i < |rs| ==> !rs[i].CellIdIs?
    ensures Run(c, rs).slots[ID] == INT_MAX
    decreases |rs|
  {
    if rs != [] {
      IdStays(c, rs[..|rs| - 1]);
      ApplyToId(Run(c, rs[..|rs| - 1]), rs[|rs| - 1]);
    }
  }

  /** The same for the strength, across further switches too. */
  lemma {:induction false} StrengthInvalidUntilReported(c: Cell, t: Technology, rs: seq<Report>)
    requires |c.slots| == SLOTS && t != c.radioType
    requires forall i :: 0 <= i < |rs| ==> !rs[i].StrengthIs?
    ensures var c' := Run(Apply(c, TechnologyIs(Some(t))), rs); !StrengthValid(Strength(c'))
  {
    StrengthStays(Apply(c, TechnologyIs(Some(t))), rs);
  }

  lemma ApplyToStrength(c: Cell, r: Report)
    requires |c.slots| == SLOTS && !r.StrengthIs?
    ensures Strength(Apply(c, r)) == if Apply(c, r).radioType == c.radioType then Strength(c) else INVALID_STRENGTH
  {
    match r
    case TechnologyIs(_) =>
    case CellIdIs(_) =>
    case AreaCodeIs(_) =>
    case CountryCodeIs(_) =>
    case NetworkCodeIs(_) =>
    case StrengthIs(_) =>
    case StatusIs(_) =>
    case TimerExpired =>
  }

  lemma {:induction false} StrengthStays(c: Cell, rs: seq<Report>)
    requires |c.slots| == SLOTS && Strength(c) == INVALID_STRENGTH
    requires forall i :: 0 <= i < |rs| ==> !rs[i].StrengthIs?
    ensures Strength(Run(c, rs)) == INVALID_STRENGTH
    decreases |rs|
  {
    if rs != [] {
      StrengthStays(c, rs[..|rs| - 1]);
      ApplyToStrength(Run(c, rs[..|rs| - 1]), rs[|rs| - 1]);
    }
  }

  /** With the heuristics needed, a UMTS cell marked valid has all its details in range; with the
      debugging switch for every technology, so has any cell. */
  predicate Trustworthy(c: Cell)
    requires |c.slots| == SLOTS
  {
    c.needed && (c.radioType.Umts? || c.alsoGsm) && c.valid ==> DetailsValid(c)
  }

  lemma ApplyKeepsTrust(c: Cell, r: Report)
    requires |c.slots| == SLOTS && Trustworthy(c)
    ensures Trustworthy(Apply(c, r))
  {
  }

  lemma {:induction false} RunKeepsTrust(c: Cell, rs: seq<Report>)
    requires |c.slots| == SLOTS && Trustworthy(c)
    ensures Trustworthy(Run(c, rs))
    decreases |rs|
  {
    if rs != [] {
      RunKeepsTrust(c, rs[..|rs| - 1]);
      ApplyKeepsTrust(Run(c, rs[..|rs| - 1]), rs[|rs| - 1]);
    }
  }

  lemma ValidMeansInRange(t: Technology, mcc: int, mnc: int, area: int, id: int, percent: int,
                          isRoaming: bool, needed: bool, alsoGsm: bool, rs: seq<Report>)
    requires Constructible(t, mcc, mnc, area, id)
    ensures Trustworthy(Run(Constructed(t, mcc, mnc, area, id, percent, isRoaming, needed, alsoGsm), rs))
  {
    RunKeepsTrust(Constructed(t, mcc, mnc, area, id, percent, isRoaming, needed, alsoGsm), rs);
  }

  /** Without the heuristics nothing is checked and no timer ever runs: the mark stays as it is. */
  lemma {:induction false} UncheckedForEver(c: Cell, rs: seq<Report>)
    requires |c.slots| == SLOTS && !c.needed && !c.armed
    ensures Run(c, rs).valid == c.valid && !Run(c, rs).armed
    decreases |rs|
  {
    if rs != [] {
      UncheckedForEver(c, rs[..|rs| - 1]);
    }
  }

  /** So a cell that does not need the heuristics counts as valid for ever, whatever its details. */
  lemma UnneededStaysValid(t: Technology, mcc: int, mnc: int, area: int, id: int, percent: int,
                           isRoaming: bool, alsoGsm: bool, rs: seq<Report>)
    ensures Run(Constructed(t, mcc, mnc, area, id, percent, isRoaming, false, alsoGsm), rs).valid
  {
    UncheckedForEver(Constructed(t, mcc, mnc, area, id, percent, isRoaming, false, alsoGsm), rs);
  }

  /** The slot LTE reads as physical id holds a strength, valid or not, in the other two views. */
  predicate StrengthSlotSane(c: Cell)
    requires |c.slots| == SLOTS
  {
    !c.radioType.Lte? ==> StrengthValid(c.slots[4]) || c.slots[4] == INVALID_STRENGTH
  }

  lemma ApplyKeepsSane(c: Cell, r: Report)
    requires |c.slots| == SLOTS && StrengthSlotSane(c)
    ensures StrengthSlotSane(Apply(c, r))
  {
    match r
    case TechnologyIs(_) =>
    case CellIdIs(_) =>
    case AreaCodeIs(_) =>
    case CountryCodeIs(_) =>
    case NetworkCodeIs(_) =>
    case StrengthIs(_) =>
    case StatusIs(_) =>
    case TimerExpired =>
  }

  lemma {:induction false} RunKeepsSane(c: Cell, rs: seq<Report>)
    requires |c.slots| == SLOTS && StrengthSlotSane(c)
    ensures StrengthSlotSane(Run(c, rs))
    decreases |rs|
  {
    if rs != [] {
      RunKeepsSane(c, rs[..|rs| - 1]);
      ApplyKeepsSane(Run(c, rs[..|rs| - 1]), rs[|rs| - 1]);
    }
  }

  /** No report carries an LTE physical id. Switching to LTE turns the old strength, even the invalid 99, into
      one that passes for valid. */
  lemma SwitchToLteForgesPhysicalId(t: Technology, mcc: int, mnc: int, area: int, id: int, percent: int,
                                    isRoaming: bool, needed: bool, alsoGsm: bool, rs: seq<Report>)
    requires Constructible(t, mcc, mnc, area, id)
    ensures var c := Run(Constructed(t, mcc, mnc, area, id, percent, isRoaming, needed, alsoGsm), rs);
            var c' := Apply(c, TechnologyIs(Some(Lte)));
            !c.radioType.Lte? ==> c'.slots[PHYSICAL_ID] == Strength(c) && PhysicalIdValid(c'.slots[PHYSICAL_ID])
  {
    RunKeepsSane(Constructed(t, mcc, mnc, area, id, percent, isRoaming, needed, alsoGsm), rs);
  }

  /** An LTE cell that stays one keeps its physical id, whatever is reported. */
  lemma ApplyKeepsPhysicalId(c: Cell, r: Report)
    requires |c.slots| == SLOTS && c.radioType.Lte? && Apply(c, r).radioType.Lte?
    ensures Apply(c, r).slots[PHYSICAL_ID] == c.slots[PHYSICAL_ID]
  {
    match r
    case TechnologyIs(_) =>
    case CellIdIs(_) =>
    case AreaCodeIs(_) =>
    case CountryCodeIs(_) =>
    case NetworkCodeIs(_) =>
    case StrengthIs(_) =>
    case StatusIs(_) =>
    case TimerExpired =>
  }

  /** At some point of the run the cell was not LTE. */
  predicate EverNotLte(c: Cell, rs: seq<Report>)
    requires |c.slots| == SLOTS
  {
    exists k :: 0 <= k <= |rs| && !Run(c, rs[..k]).radioType.Lte?
  }

  lemma EverNotLteNext(c: Cell, rs: seq<Report>)
    requires |c.slots| == SLOTS && rs != []
    ensures EverNotLte(c, rs) <==> EverNotLte(c, rs[..|rs| - 1]) || !Run(c, rs).radioType.Lte?
  {
    var g := rs[..|rs| - 1];
    assert forall k :: 0 <= k <= |g| ==> g[..k] == rs[..k];
    assert rs[..|rs|] == rs;
    if EverNotLte(c, rs) {
      var k :| 0 <= k <= |rs| && !Run(c, rs[..k]).radioType.Lte?;
      assert k < |rs| ==> g[..k] == rs[..k];
    }
  }

  /** A cell that becomes LTE takes over the old strength slot. */
  lemma BecomesLte(c: Cell, r: Report)
    requires |c.slots| == SLOTS && StrengthSlotSane(c) && !c.radioType.Lte? && Apply(c, r).radioType.Lte?
    ensures PhysicalIdValid(Apply(c, r).slots[PHYSICAL_ID])
  {
    assert r.TechnologyIs?;
  }

  lemma {:induction false} PhysicalIdOver(c: Cell, rs: seq<Report>)
    requires |c.slots| == SLOTS && StrengthSlotSane(c) && (c.radioType.Lte? ==> c.slots[PHYSICAL_ID] == -1)
    ensures var c' := Run(c, rs);
            if EverNotLte(c, rs) then c'.radioType.Lte? ==> PhysicalIdValid(c'.slots[PHYSICAL_ID])
            else c'.radioType.Lte? && c'.slots[PHYSICAL_ID] == -1
    decreases |rs|
  {
    if rs == [] {
      assert rs[..0] == [];
      assert !c.radioType.Lte? ==> EverNotLte(c, rs);
    } else {
      var g := rs[..|rs| - 1];
      var r := rs[|rs| - 1];
      PhysicalIdOver(c, g);
      EverNotLteNext(c, rs);
      RunKeepsSane(c, g);
      if Run(c, g).radioType.Lte? && Run(c, rs).radioType.Lte? {
        ApplyKeepsPhysicalId(Run(c, g), r);
      } else if !Run(c, g).radioType.Lte? {
        assert g[..|g|] == g;
        assert EverNotLte(c, g);
        if Run(c, rs).radioType.Lte? {
          BecomesLte(Run(c, g), r);
        }
      }
    }
  }

  /** After any run from a full construction, an LTE cell's physical id passes for valid if and only if
      the cell was not LTE at some point before: it is never reported, only forged. */
  lemma PhysicalIdValidIffForged(t: Technology, mcc: int, mnc: int, area: int, id: int, percent: int,
                                 isRoaming: bool, needed: bool, alsoGsm: bool, rs: seq<Report>)
    requires Constructible(t, mcc, mnc, area, id)
    ensures var c := Constructed(t, mcc, mnc, area, id, percent, isRoaming, needed, alsoGsm);
            var c' := Run(c, rs);
            c'.radioType.Lte? ==> (PhysicalIdValid(c'.slots[PHYSICAL_ID]) <==> EverNotLte(c, rs))
  {
    PhysicalIdOver(Constructed(t, mcc, mnc, area, id, percent, isRoaming, needed, alsoGsm), rs);
  }

  /** So a cell that has always been LTE never has all its details valid. */
  lemma LteFromTheStartStaysInvalid(mcc: int, mnc: int, area: int, id: int, percent: int,
                                    isRoaming: bool, needed: bool, alsoGsm: bool, rs: seq<Report>)
    requires Constructible(Lte, mcc, mnc, area, id)
    ensures var c := Constructed(Lte, mcc, mnc, area, id, percent, isRoaming, needed, alsoGsm);
            !EverNotLte(c, rs) ==> !DetailsValid(Run(c, rs))
  {
    PhysicalIdOver(Constructed(Lte, mcc, mnc, area, id, percent, isRoaming, needed, alsoGsm), rs);
  }
}
