/** What a cell shows after any run of reports, described by the reports alone: the last technology, the last
    values in range, what a switch forgets, and when the cell counts as valid. */
module RadioCellReports {
  import opened Prelude
  import opened RadioCell

  function Front(rs: seq<Report>): seq<Report>
    requires rs != []
  {
    rs[..|rs| - 1]
  }

  function Last(rs: seq<Report>): Report
    requires rs != []
  {
    rs[|rs| - 1]
  }

  // --- The description -----------------------------------------------------------------------

  /** The last technology reported that is known to the service. */
  function LastTechnology(c: Cell, rs: seq<Report>): Technology {
    if rs == [] then c.radioType
    else if Last(rs).TechnologyIs? && Last(rs).t.Some? then Last(rs).t.value
    else LastTechnology(c, Front(rs))
  }

  /** The last report is of another technology than before. */
  predicate Switches(c: Cell, rs: seq<Report>) {
    rs != [] && LastTechnology(c, rs) != LastTechnology(c, Front(rs))
  }

  /** How many reports there were up to the last switch, itself included; 0 if there was none. */
  function LastSwitch(c: Cell, rs: seq<Report>): (k: nat)
    ensures k <= |rs|
  {
    if rs == [] then 0 else if Switches(c, rs) then |rs| else LastSwitch(c, Front(rs))
  }

  /** The largest cell id: 16 bits in GSM, 28 bits in UMTS and LTE. */
  function LargestId(t: Technology): int { if t.Gsm? then 0xFFFF else 0xFFF_FFFF }

  /** The last id in range reported since the last switch. */
  function LastId(c: Cell, rs: seq<Report>): Option<int> {
    if rs == [] || Switches(c, rs) then None
    else if Last(rs).CellIdIs? && Last(rs).id <= LargestId(LastTechnology(c, rs)) then Some(Last(rs).id)
    else LastId(c, Front(rs))
  }

  /** The last percentage reported since the last switch. */
  function LastPercent(c: Cell, rs: seq<Report>): Option<int> {
    if rs == [] || Switches(c, rs) then None
    else if Last(rs).StrengthIs? then Some(Last(rs).percent)
    else LastPercent(c, Front(rs))
  }

  /** 0 and below is 0, 100 and above is 31, in between in proportion. */
  function Scaled(percent: int): int {
    if percent <= 0 then 0 else if percent >= 100 then 31 else 31 * percent / 100
  }

  function IdAfter(c: Cell, rs: seq<Report>): int
    requires |c.slots| == SLOTS
  {
    if LastId(c, rs).Some? then LastId(c, rs).value else if LastSwitch(c, rs) == 0 then c.slots[3] else 0x7FFF_FFFF
  }

  function StrengthAfter(c: Cell, rs: seq<Report>): int
    requires |c.slots| == SLOTS
  {
    if LastPercent(c, rs).Some? then Scaled(LastPercent(c, rs).value)
    else if LastSwitch(c, rs) == 0 then Strength(c)
    else 99
  }

  /** LTE's physical id: the strength from before the last switch, since nothing else ever reaches its place. */
  function PhysicalIdAfter(c: Cell, rs: seq<Report>): int
    requires |c.slots| == SLOTS
  {
    if LastSwitch(c, rs) == 0 then c.slots[4] else StrengthAfter(c, rs[..LastSwitch(c, rs) - 1])
  }

  function LastStatus(c: Cell, rs: seq<Report>): bool {
    if rs == [] then c.roaming else if Last(rs).StatusIs? then Last(rs).isRoaming else LastStatus(c, Front(rs))
  }

  /** All details the reports add up to are in range. */
  predicate AllInRange(c: Cell, rs: seq<Report>)
    requires |c.slots| == SLOTS
  {
    && 0 <= LastReported(rs, Country, c.slots[0]) <= 999
    && 0 <= LastReported(rs, Network, c.slots[1]) <= 999
    && 0 <= LastReported(rs, Area, c.slots[2]) <= 65535
    && 0 <= IdAfter(c, rs) <= LargestId(LastTechnology(c, rs))
    && 0 <= StrengthAfter(c, rs) <= 31
    && (LastTechnology(c, rs).Lte? ==> 0 <= PhysicalIdAfter(c, rs) <= 503)
  }

  /** The last report changed the cell's identity: a switch, or a value in range. */
  predicate ChangesIdentity(c: Cell, rs: seq<Report>) {
    && rs != []
    && match Last(rs)
       case TechnologyIs(_) => Switches(c, rs)
       case CellIdIs(id) => id <= LargestId(LastTechnology(c, rs))
       case AreaCodeIs(area) => 0 <= area <= 65535
       case CountryCodeIs(code) => 0 <= code <= 999
       case NetworkCodeIs(code) => 0 <= code <= 999
       case _ => false
  }

  /** And the heuristics apply: for UMTS, or with the debugging switch for every technology. */
  predicate IsJudged(c: Cell, rs: seq<Report>) {
    ChangesIdentity(c, rs) && c.needed && (LastTechnology(c, rs).Umts? || c.alsoGsm)
  }

  /** How many reports there were up to the last that was judged; 0 if there was none. */
  function LastJudged(c: Cell, rs: seq<Report>): (k: nat)
    ensures k <= |rs|
  {
    if rs == [] then 0 else if IsJudged(c, rs) then |rs| else LastJudged(c, Front(rs))
  }

  predicate Expires(rs: seq<Report>) { exists i :: 0 <= i < |rs| && rs[i].TimerExpired? }

  /** The mark: as the last judgement found it, until the timer that it started expires. */
  predicate DeemedValid(c: Cell, rs: seq<Report>)
    requires |c.slots| == SLOTS
  {
    var k := LastJudged(c, rs);
    if k > 0 then AllInRange(c, rs[..k]) && !Expires(rs[k..])
    else c.valid && !(c.armed && Expires(rs))
  }

  /** How often changed() has been emitted: at changes of identity or strength, while the cell was deemed
      valid before. */
  function Emitted(c: Cell, rs: seq<Report>): nat
    requires |c.slots| == SLOTS
  {
    if rs == [] then c.notifications
    else Emitted(c, Front(rs)) +
         if (ChangesIdentity(c, rs) || Last(rs).StrengthIs?) && DeemedValid(c, Front(rs)) then 1 else 0
  }

  // --- The cell is as described --------------------------------------------------------------

  lemma TechnologyStep(c: Cell, r: Report)
    requires |c.slots| == SLOTS
    ensures Apply(c, r).radioType == if r.TechnologyIs? && r.t.Some? then r.t.value else c.radioType
  {
    match r
    case TechnologyIs(_) =>
    case CellIdIs(_) =>
    case AreaCodeIs(_) =>
    case CountryCodeIs(_) =>
    case NetworkCodeIs(_) =>
    case StrengthIs(_) =>
    case StatusIs(_) =>
    case TimerExpired =>
  }

  lemma {:induction false} TechnologyDescribed(c: Cell, rs: seq<Report>)
    requires |c.slots| == SLOTS
    ensures Run(c, rs).radioType == LastTechnology(c, rs)
  {
    if rs != [] {
      TechnologyDescribed(c, Front(rs));
      TechnologyStep(Run(c, Front(rs)), Last(rs));
    }
  }

  lemma IdStep(c: Cell, r: Report)
    requires |c.slots| == SLOTS
    ensures Apply(c, r).slots[ID] ==
              if r.CellIdIs? && r.id <= LargestId(c.radioType) then r.id
              else if r.TechnologyIs? && r.t.Some? && r.t.value != c.radioType then 0x7FFF_FFFF
              else c.slots[ID]
  {
    match r
    case TechnologyIs(_) =>
    case CellIdIs(_) =>
    case AreaCodeIs(_) =>
    case CountryCodeIs(_) =>
    case NetworkCodeIs(_) =>
    case StrengthIs(_) =>
    case StatusIs(_) =>
    case TimerExpired =>
  }

  /** The id is the last in range since the last switch, and invalid until there is one. */
  lemma {:induction false} IdDescribed(c: Cell, rs: seq<Report>)
    requires |c.slots| == SLOTS
    ensures Run(c, rs).slots[ID] == IdAfter(c, rs)
  {
    if rs != [] {
      IdDescribed(c, Front(rs));
      TechnologyDescribed(c, Front(rs));
      TechnologyDescribed(c, rs);
      IdStep(Run(c, Front(rs)), Last(rs));
    }
  }

  lemma StrengthStep(c: Cell, r: Report)
    requires |c.slots| == SLOTS
    ensures Strength(Apply(c, r)) ==
              if r.StrengthIs? then Scaled(r.percent)
              else if r.TechnologyIs? && r.t.Some? && r.t.value != c.radioType then 99
              else Strength(c)
  {
    match r
    case TechnologyIs(_) =>
    case CellIdIs(_) =>
    case AreaCodeIs(_) =>
    case CountryCodeIs(_) =>
    case NetworkCodeIs(_) =>
    case StrengthIs(_) =>
    case StatusIs(_) =>
    case TimerExpired =>
  }

  lemma {:induction false} StrengthDescribed(c: Cell, rs: seq<Report>)
    requires |c.slots| == SLOTS
    ensures Strength(Run(c, rs)) == StrengthAfter(c, rs)
  {
    if rs != [] {
      StrengthDescribed(c, Front(rs));
      TechnologyDescribed(c, Front(rs));
      StrengthStep(Run(c, Front(rs)), Last(rs));
    }
  }

  lemma PhysicalIdStep(c: Cell, r: Report)
    requires |c.slots| == SLOTS && Apply(c, r).radioType.Lte?
    ensures Apply(c, r).slots[PHYSICAL_ID] == if c.radioType.Lte? then c.slots[PHYSICAL_ID] else Strength(c)
  {
    match r
    case TechnologyIs(_) =>
    case CellIdIs(_) =>
    case AreaCodeIs(_) =>
    case CountryCodeIs(_) =>
    case NetworkCodeIs(_) =>
    case StrengthIs(_) =>
    case StatusIs(_) =>
    case TimerExpired =>
  }

  lemma {:induction false} PhysicalIdDescribed(c: Cell, rs: seq<Report>)
    requires |c.slots| == SLOTS
    ensures Run(c, rs).radioType.Lte? ==> Run(c, rs).slots[PHYSICAL_ID] == PhysicalIdAfter(c, rs)
  {
    TechnologyDescribed(c, rs);
    if rs != [] && Run(c, rs).radioType.Lte? {
      var g := Front(rs);
      PhysicalIdDescribed(c, g);
      TechnologyDescribed(c, g);
      StrengthDescribed(c, g);
      PhysicalIdStep(Run(c, g), Last(rs));
      if !Switches(c, rs) && LastSwitch(c, g) > 0 {
        assert g[..LastSwitch(c, g) - 1] == rs[..LastSwitch(c, g) - 1];
      }
    }
  }

  lemma {:induction false} StatusDescribed(c: Cell, rs: seq<Report>)
    requires |c.slots| == SLOTS
    ensures Run(c, rs).roaming == LastStatus(c, rs)
  {
    if rs != [] {
      StatusDescribed(c, Front(rs));
      RoamingStep(Run(c, Front(rs)), Last(rs));
    }
  }

  lemma RoamingStep(c: Cell, r: Report)
    requires |c.slots| == SLOTS
    ensures Apply(c, r).roaming == if r.StatusIs? then r.isRoaming else c.roaming
  {
  }

  /** Country, network and area code as the description of codes says; they need no initial range here. */
  lemma {:induction false} CodeDescribed(c: Cell, rs: seq<Report>, f: Code)
    requires |c.slots| == SLOTS
    ensures Run(c, rs).slots[SlotOf(f)] == LastReported(rs, f, c.slots[SlotOf(f)])
  {
    if rs != [] {
      CodeDescribed(c, Front(rs), f);
      ApplyToCode(Run(c, Front(rs)), Last(rs), f);
    }
  }

  /** The validity predicates say of the cell what the description says of the reports. */
  lemma RangesDescribed(c: Cell, rs: seq<Report>)
    requires |c.slots| == SLOTS
    ensures DetailsValid(Run(c, rs)) <==> AllInRange(c, rs)
  {
    TechnologyDescribed(c, rs);
    CodeDescribed(c, rs, Country);
    CodeDescribed(c, rs, Network);
    CodeDescribed(c, rs, Area);
    IdDescribed(c, rs);
    StrengthDescribed(c, rs);
    PhysicalIdDescribed(c, rs);
  }

  // --- The mark ------------------------------------------------------------------------------

  predicate Identifies(c: Cell, r: Report) {
    match r
    case TechnologyIs(t) => t.Some? && t.value != c.radioType
    case CellIdIs(id) => id <= LargestId(c.radioType)
    case AreaCodeIs(area) => 0 <= area <= 65535
    case CountryCodeIs(code) => 0 <= code <= 999
    case NetworkCodeIs(code) => 0 <= code <= 999
    case _ => false
  }

  predicate Judges(c: Cell, r: Report)
    requires |c.slots| == SLOTS
  {
    Identifies(c, r) && c.needed && (Apply(c, r).radioType.Umts? || c.alsoGsm)
  }

  lemma ArmedStep(c: Cell, r: Report)
    requires |c.slots| == SLOTS
    ensures Apply(c, r).armed == (Judges(c, r) || (c.armed && !r.TimerExpired?))
  {
    match r
    case TechnologyIs(_) =>
    case CellIdIs(_) =>
    case AreaCodeIs(_) =>
    case CountryCodeIs(_) =>
    case NetworkCodeIs(_) =>
    case StrengthIs(_) =>
    case StatusIs(_) =>
    case TimerExpired =>
  }

  lemma JudgedStep(c: Cell, r: Report)
    requires |c.slots| == SLOTS && Judges(c, r)
    ensures Apply(c, r).valid == DetailsValid(Apply(c, r))
  {
    match r
    case TechnologyIs(_) =>
    case CellIdIs(_) =>
    case AreaCodeIs(_) =>
    case CountryCodeIs(_) =>
    case NetworkCodeIs(_) =>
    case _ =>
  }

  lemma UnjudgedStep(c: Cell, r: Report)
    requires |c.slots| == SLOTS && !Judges(c, r)
    ensures Apply(c, r).valid == (c.valid && !(c.armed && r.TimerExpired?))
  {
    match r
    case TechnologyIs(_) =>
    case CellIdIs(_) =>
    case AreaCodeIs(_) =>
    case CountryCodeIs(_) =>
    case NetworkCodeIs(_) =>
    case StrengthIs(_) =>
    case StatusIs(_) =>
    case TimerExpired =>
  }

  lemma MarkStep(c: Cell, r: Report)
    requires |c.slots| == SLOTS
    ensures var c' := Apply(c, r);
            && c'.armed == (Judges(c, r) || (c.armed && !r.TimerExpired?))
            && c'.valid == (if Judges(c, r) then DetailsValid(c') else c.valid && !(c.armed && r.TimerExpired?))
  {
    ArmedStep(c, r);
    if Judges(c, r) {
      JudgedStep(c, r);
    } else {
      UnjudgedStep(c, r);
    }
  }

  lemma EmissionStep(c: Cell, r: Report)
    requires |c.slots| == SLOTS
    ensures Apply(c, r).notifications ==
              c.notifications + if (Identifies(c, r) || r.StrengthIs?) && c.valid then 1 else 0
  {
    match r
    case TechnologyIs(_) =>
    case CellIdIs(_) =>
    case AreaCodeIs(_) =>
    case CountryCodeIs(_) =>
    case NetworkCodeIs(_) =>
    case StrengthIs(_) =>
    case StatusIs(_) =>
    case TimerExpired =>
  }

  lemma IdentityDescribed(c: Cell, rs: seq<Report>)
    requires |c.slots| == SLOTS && rs != []
    ensures Identifies(Run(c, Front(rs)), Last(rs)) <==> ChangesIdentity(c, rs)
  {
    TechnologyDescribed(c, Front(rs));
    TechnologyDescribed(c, rs);
  }

  lemma ExpiresNext(rs: seq<Report>, k: nat)
    requires k < |rs|
    ensures Expires(rs[k..]) <==> Expires(Front(rs)[k..]) || Last(rs).TimerExpired?
  {
    var a, b := rs[k..], Front(rs)[k..];
    assert a == b + [Last(rs)];
    if Last(rs).TimerExpired? {
      assert a[|a| - 1].TimerExpired?;
    }
    if Expires(b) {
      var i :| 0 <= i < |b| && b[i].TimerExpired?;
      assert a[i].TimerExpired?;
    }
    if Expires(a) {
      var i :| 0 <= i < |a| && a[i].TimerExpired?;
      assert i < |b| ==> b[i] == a[i];
    }
  }

  /** The timer runs from the last judgement, or from the beginning, until it expires. */
  predicate TimerRuns(c: Cell, rs: seq<Report>) {
    var k := LastJudged(c, rs);
    (k > 0 || c.armed) && !Expires(rs[k..])
  }

  lemma {:induction false} MarkDescribed(c: Cell, rs: seq<Report>)
    requires |c.slots| == SLOTS
    ensures Run(c, rs).armed == TimerRuns(c, rs)
    ensures Run(c, rs).valid == DeemedValid(c, rs)
  {
    if rs == [] {
      assert rs[0..] == [];
    } else {
      var g := Front(rs);
      MarkDescribed(c, g);
      MarkStep(Run(c, g), Last(rs));
      IdentityDescribed(c, rs);
      TechnologyDescribed(c, rs);
      if IsJudged(c, rs) {
        RangesDescribed(c, rs);
        assert rs[..|rs|] == rs && rs[|rs|..] == [];
      } else {
        var k := LastJudged(c, g);
        ExpiresNext(rs, k);
        assert g[..k] == rs[..k];
        assert g[0..] == g && rs[0..] == rs;
      }
    }
  }

  /** The cell emits changed() exactly at the changes that happen while it is deemed valid. */
  lemma {:induction false} EmissionsDescribed(c: Cell, rs: seq<Report>)
    requires |c.slots| == SLOTS
    ensures Run(c, rs).notifications == Emitted(c, rs)
  {
    if rs != [] {
      EmissionsDescribed(c, Front(rs));
      MarkDescribed(c, Front(rs));
      EmissionStep(Run(c, Front(rs)), Last(rs));
      IdentityDescribed(c, rs);
    }
  }

  /** The handler throws exactly for a value out of range, and then leaves the cell as it is. */
  lemma ThrowsDescribed(c: Cell, r: Report)
    requires |c.slots| == SLOTS
    ensures Throws(c, r) <==>
              match r
              case CellIdIs(id) => id > LargestId(c.radioType)
              case AreaCodeIs(area) => !(0 <= area <= 65535)
              case CountryCodeIs(code) => !(0 <= code <= 999)
              case NetworkCodeIs(code) => !(0 <= code <= 999)
              case _ => false
    ensures Throws(c, r) ==> Apply(c, r) == c
  {
  }

  /** Everything a cell shows after any reports, from a full construction, in terms of the parameters and the reports:
      nothing but the last values in range, what a switch forgets, and the judgement of the last identity. */
  lemma CellDescribed(t: Technology, mcc: int, mnc: int, area: int, id: int, percent: int,
                      isRoaming: bool, needed: bool, alsoGsm: bool, rs: seq<Report>)
    requires Constructible(t, mcc, mnc, area, id)
    ensures var c := Constructed(t, mcc, mnc, area, id, percent, isRoaming, needed, alsoGsm);
            var c' := Run(c, rs);
            && c'.radioType == LastTechnology(c, rs) && c.radioType == t
            && c'.slots[0] == LastReported(rs, Country, mcc)
            && c'.slots[1] == LastReported(rs, Network, mnc)
            && c'.slots[2] == LastReported(rs, Area, area)
            && c'.slots[3] == IdAfter(c, rs) && c.slots[3] == id
            && Strength(c') == StrengthAfter(c, rs) && Strength(c) == Scaled(percent)
            && c'.roaming == LastStatus(c, rs) && c.roaming == isRoaming
            && c'.valid == DeemedValid(c, rs)
            && c'.notifications == Emitted(c, rs) && c.notifications == 0
  {
    var c := Constructed(t, mcc, mnc, area, id, percent, isRoaming, needed, alsoGsm);
    TechnologyDescribed(c, rs);
    CodeDescribed(c, rs, Country);
    CodeDescribed(c, rs, Network);
    CodeDescribed(c, rs, Area);
    IdDescribed(c, rs);
    StrengthDescribed(c, rs);
    StatusDescribed(c, rs);
    MarkDescribed(c, rs);
    EmissionsDescribed(c, rs);
  }

  /** A newly constructed cell: judged at once where the heuristics apply, else valid. */
  lemma NewCellDescribed(t: Technology, mcc: int, mnc: int, area: int, id: int, percent: int,
                         isRoaming: bool, needed: bool, alsoGsm: bool)
    requires Constructible(t, mcc, mnc, area, id)
    ensures var c := Constructed(t, mcc, mnc, area, id, percent, isRoaming, needed, alsoGsm);
            && c.armed == (needed && (t.Umts? || alsoGsm))
            && c.valid == !(t.Lte? && needed && alsoGsm)
  {
  }
}
