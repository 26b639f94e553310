/** The current plugin (PvPChecks/Main.cs): what one PlayerUpdate finds, the
    warning it renders, and the plugin object whose state the hooks and the
    ban-list commands change. */
module PvPChecks {
  import opened Collections
  import opened Host
  import opened Checks
  import Messages
  import C = PvPConfiguration
  import BanLists
  import Lookup
  import Enforcement
  import opened Commands

  datatype Infringement =
    | BannedItem | BannedBuff | DuplicateBuff | IllegalPrefix
    | PrefixedArmour | PrefixedAmmo | Duplication | SeventhSlot

  /** The position of each check in OnPlayerUpdate. */
  function Stage(k: Infringement): nat {
    match k
    case DuplicateBuff => 0
    case BannedBuff => 1
    case BannedItem => 2
    case IllegalPrefix => 3
    case PrefixedAmmo => 4
    case PrefixedArmour => 5
    case Duplication => 6
    case SeventhSlot => 7
  }

  /** Each infringement appears at most once, in the order the checks run. */
  predicate InPipelineOrder(s: seq<Infringement>) {
    forall i, j :: 0 <= i < j < |s| ==> Stage(s[i]) < Stage(s[j])
  }

  /** What one update collects: the infringements and the evidence lists. */
  datatype Report = Report(infringements: seq<Infringement>, bannedItems: seq<Item>, bannedBuffs: seq<int>)

  const NoReport: Report := Report([], [], [])

  /** The outcome of each of the eight checks on a player who passed the
      entry gates. */
  datatype Flags = Flags(
    duplicateBuff: bool, bannedBuff: bool, bannedItem: bool, illegalPrefix: bool,
    prefixedAmmo: bool, prefixedArmour: bool, duplication: bool, seventhSlot: bool)

  /** The flag of the check that reports `k`. */
  function Raised(f: Flags, k: Infringement): bool {
    match k
    case DuplicateBuff => f.duplicateBuff
    case BannedBuff => f.bannedBuff
    case BannedItem => f.bannedItem
    case IllegalPrefix => f.illegalPrefix
    case PrefixedAmmo => f.prefixedAmmo
    case PrefixedArmour => f.prefixedArmour
    case Duplication => f.duplication
    case SeventhSlot => f.seventhSlot
  }

  /** Each check of OnPlayerUpdate, gated by its toggle and its exemption. */
  function Evaluate(c: C.Configuration, t: PrefixTables, p: Player): Flags
    requires WellFormed(p)
  {
    var buffs := Active(c.enableBuffCheck, p, UseBannedBuffs);
    Flags(
      duplicateBuff := buffs && Checks.DuplicateBuff(p.buffType),
      bannedBuff := buffs && |BannedBuffEvidence(c.bannedBuffs, p.buffType)| > 0,
      bannedItem := Active(c.enableItemCheck, p, UseBannedWeps)
        && |BannedItemEvidence(c.bannedItems, Selected(p), p.miscEquips, p.armor)| > 0,
      illegalPrefix := Active(c.enablePrefixCheck, p, UseIllegalWeps)
        && Selected(p).Some? && IllegallyPrefixed(Selected(p).value, t),
      prefixedAmmo := PrefixedAmmoGuard(Active(c.enablePrefixCheck, p, UsePrefixedAmmo), Selected(p))
        && HasPrefixedAmmo(p.inventory, c.ammoIDs),
      prefixedArmour := Active(c.enablePrefixCheck, p, UsePrefixedArmor) && HasPrefixedBodyArmour(p.armor),
      duplication := Active(c.enableDupeCheck, p, HaveDupeAccessories) && DuplicateArmour(p.armor),
      seventhSlot := Active(c.enable7thSlotCheck, p, Use7thSlot) && UsesSeventhSlot(p.armor))
  }

  /** `if (raised) infringements.Add(k)` */
  function Then(s: seq<Infringement>, raised: bool, k: Infringement): seq<Infringement> {
    if raised then s + [k] else s
  }

  /** Ordered, and every stage below `n`. */
  predicate Below(s: seq<Infringement>, n: nat) {
    InPipelineOrder(s) && forall i :: 0 <= i < |s| ==> Stage(s[i]) < n
  }

  lemma ThenStep(s: seq<Infringement>, raised: bool, k: Infringement)
    requires Below(s, Stage(k))
    ensures Below(Then(s, raised, k), Stage(k) + 1)
  {
  }

  /** The infringement list the checks build, one check at a time. */
  function Pipeline(f: Flags): seq<Infringement> {
    Then(Then(Then(Then(Then(Then(Then(Then([],
      f.duplicateBuff, DuplicateBuff), f.bannedBuff, BannedBuff), f.bannedItem, BannedItem),
      f.illegalPrefix, IllegalPrefix), f.prefixedAmmo, PrefixedAmmo), f.prefixedArmour, PrefixedArmour),
      f.duplication, Duplication), f.seventhSlot, SeventhSlot)
  }

  /** The first four checks report in order, below PrefixedAmmo. */
  lemma BuffAndItemStagesOrdered(f: Flags)
    ensures Below(Then(Then(Then(Then([],
      f.duplicateBuff, DuplicateBuff), f.bannedBuff, BannedBuff), f.bannedItem, BannedItem),
      f.illegalPrefix, IllegalPrefix), Stage(PrefixedAmmo))
  {
    var s0 := Then([], f.duplicateBuff, DuplicateBuff);
    ThenStep([], f.duplicateBuff, DuplicateBuff);
    var s1 := Then(s0, f.bannedBuff, BannedBuff);
    ThenStep(s0, f.bannedBuff, BannedBuff);
    var s2 := Then(s1, f.bannedItem, BannedItem);
    ThenStep(s1, f.bannedItem, BannedItem);
    ThenStep(s2, f.illegalPrefix, IllegalPrefix);
  }

  /** The checks report in the order they run, each at most once. */
  lemma PipelineOrdered(f: Flags)
    ensures InPipelineOrder(Pipeline(f))
  {
    var s3 := Then(Then(Then(Then([],
      f.duplicateBuff, DuplicateBuff), f.bannedBuff, BannedBuff), f.bannedItem, BannedItem),
      f.illegalPrefix, IllegalPrefix);
    BuffAndItemStagesOrdered(f);
    var s4 := Then(s3, f.prefixedAmmo, PrefixedAmmo);
    ThenStep(s3, f.prefixedAmmo, PrefixedAmmo);
    var s5 := Then(s4, f.prefixedArmour, PrefixedArmour);
    ThenStep(s4, f.prefixedArmour, PrefixedArmour);
    var s6 := Then(s5, f.duplication, Duplication);
    ThenStep(s5, f.duplication, Duplication);
    ThenStep(s6, f.seventhSlot, SeventhSlot);
  }

  lemma InThen(s: seq<Infringement>, raised: bool, k: Infringement, x: Infringement)
    ensures x in Then(s, raised, k) <==> x in s || (raised && x == k)
  {
  }

  /** Membership in the first four checks' output. */
  lemma BuffAndItemStagesMembers(f: Flags, x: Infringement)
    ensures x in Then(Then(Then(Then([],
      f.duplicateBuff, DuplicateBuff), f.bannedBuff, BannedBuff), f.bannedItem, BannedItem),
      f.illegalPrefix, IllegalPrefix) <==>
      (f.duplicateBuff && x == DuplicateBuff) || (f.bannedBuff && x == BannedBuff)
      || (f.bannedItem && x == BannedItem) || (f.illegalPrefix && x == IllegalPrefix)
  {
    var s0 := Then([], f.duplicateBuff, DuplicateBuff);
    var s1 := Then(s0, f.bannedBuff, BannedBuff);
    var s2 := Then(s1, f.bannedItem, BannedItem);
    InThen(s2, f.illegalPrefix, IllegalPrefix, x);
    InThen(s1, f.bannedItem, BannedItem, x);
    InThen(s0, f.bannedBuff, BannedBuff, x);
    InThen([], f.duplicateBuff, DuplicateBuff, x);
  }

  /** An infringement is in the list exactly when its check fired. */
  lemma PipelineMembers(f: Flags)
    ensures forall k :: k in Pipeline(f) <==> Raised(f, k)
  {
    var s3 := Then(Then(Then(Then([],
      f.duplicateBuff, DuplicateBuff), f.bannedBuff, BannedBuff), f.bannedItem, BannedItem),
      f.illegalPrefix, IllegalPrefix);
    var s4 := Then(s3, f.prefixedAmmo, PrefixedAmmo);
    var s5 := Then(s4, f.prefixedArmour, PrefixedArmour);
    var s6 := Then(s5, f.duplication, Duplication);
    forall k ensures k in Then(s6, f.seventhSlot, SeventhSlot) <==> Raised(f, k) {
      InThen(s6, f.seventhSlot, SeventhSlot, k);
      InThen(s5, f.duplication, Duplication, k);
      InThen(s4, f.prefixedArmour, PrefixedArmour, k);
      InThen(s3, f.prefixedAmmo, PrefixedAmmo, k);
      BuffAndItemStagesMembers(f, k);
    }
  }

  /** Everything one PlayerUpdate collects, before enforcement. */
  function Detect(c: C.Configuration, t: PrefixTables, p: Player): (r: Report)
    requires WellFormed(p)
    ensures !PassesGate(c.enableRegionCheck, c.restrictedRegions, p) ==> r == NoReport
    ensures InPipelineOrder(r.infringements)
    ensures forall k :: k in r.infringements <==>
      PassesGate(c.enableRegionCheck, c.restrictedRegions, p) && Raised(Evaluate(c, t, p), k)
    ensures r.bannedItems != [] <==> BannedItem in r.infringements
    ensures r.bannedBuffs != [] <==> BannedBuff in r.infringements
    ensures BannedItem in r.infringements ==>
      r.bannedItems == BannedItemEvidence(c.bannedItems, Selected(p), p.miscEquips, p.armor)
    ensures BannedBuff in r.infringements ==> r.bannedBuffs == BannedBuffEvidence(c.bannedBuffs, p.buffType)
  {
    if !PassesGate(c.enableRegionCheck, c.restrictedRegions, p) then NoReport
    else
      PipelineOrdered(Evaluate(c, t, p));
      PipelineMembers(Evaluate(c, t, p));
      Report(
        Pipeline(Evaluate(c, t, p)),
        if Active(c.enableItemCheck, p, UseBannedWeps)
        then BannedItemEvidence(c.bannedItems, Selected(p), p.miscEquips, p.armor) else [],
        if Active(c.enableBuffCheck, p, UseBannedBuffs) then BannedBuffEvidence(c.bannedBuffs, p.buffType) else [])
  }

  /** A proof step for CollectInfringements, not a property: the report of a
      player who passes the entry gates, spelled out. */
  lemma DetectPassed(c: C.Configuration, t: PrefixTables, p: Player)
    requires WellFormed(p) && PassesGate(c.enableRegionCheck, c.restrictedRegions, p)
    ensures Detect(c, t, p) == Report(
      Pipeline(Evaluate(c, t, p)),
      if Active(c.enableItemCheck, p, UseBannedWeps)
      then BannedItemEvidence(c.bannedItems, Selected(p), p.miscEquips, p.armor) else [],
      if Active(c.enableBuffCheck, p, UseBannedBuffs) then BannedBuffEvidence(c.bannedBuffs, p.buffType) else [])
  {
  }

  /** A player outside PvP, or holding pvpchecks.useall, is never reported. */
  lemma ExemptPlayersNotReported(c: C.Configuration, t: PrefixTables, p: Player)
    requires WellFormed(p)
    requires !p.hostile || HasPermission(p, UseAll)
    ensures Detect(c, t, p).infringements == []
  {
  }

  /** With the region check on, a player without pvpchecks.ignoreregion
      outside every restricted region is never reported. */
  lemma UnrestrictedRegionNotReported(c: C.Configuration, t: PrefixTables, p: Player)
    requires WellFormed(p)
    requires c.enableRegionCheck && !HasPermission(p, IgnoreRegion)
    requires p.currentRegion.None? || p.currentRegion.value !in c.restrictedRegions
    ensures Detect(c, t, p).infringements == []
  {
  }

  /** Every infringement is reported at most once. */
  lemma InfringementsDistinct(c: C.Configuration, t: PrefixTables, p: Player)
    requires WellFormed(p)
    ensures NoDuplicates(Detect(c, t, p).infringements)
  {
    var s := Detect(c, t, p).infringements;
    forall i, j | 0 <= i < j < |s| ensures s[i] != s[j] {
      assert Stage(s[i]) < Stage(s[j]);
    }
  }

  /** The buff and banned-item checks of OnPlayerUpdate, with their evidence. */
  method CheckBuffsAndItems(c: C.Configuration, t: PrefixTables, p: Player)
    returns (infringements: seq<Infringement>, bannedItems: seq<Item>, bannedBuffs: seq<int>)
    requires WellFormed(p)
    ensures var f := Evaluate(c, t, p);
      infringements == Then(Then(Then([], f.duplicateBuff, DuplicateBuff), f.bannedBuff, BannedBuff),
        f.bannedItem, BannedItem)
    ensures bannedItems == if Active(c.enableItemCheck, p, UseBannedWeps)
      then BannedItemEvidence(c.bannedItems, Selected(p), p.miscEquips, p.armor) else []
    ensures bannedBuffs == if Active(c.enableBuffCheck, p, UseBannedBuffs)
      then BannedBuffEvidence(c.bannedBuffs, p.buffType) else []
  {
    ghost var f := Evaluate(c, t, p);
    infringements := [];
    bannedItems := [];
    bannedBuffs := [];
    if Active(c.enableBuffCheck, p, UseBannedBuffs) {
      if Checks.DuplicateBuff(p.buffType) {
        infringements := infringements + [DuplicateBuff];
      }
      bannedBuffs := BannedBuffEvidence(c.bannedBuffs, p.buffType);
      if |bannedBuffs| > 0 {
        infringements := infringements + [BannedBuff];
      }
    }
    assert infringements == Then(Then([], f.duplicateBuff, DuplicateBuff), f.bannedBuff, BannedBuff);

    var selected := Selected(p);
    if Active(c.enableItemCheck, p, UseBannedWeps) {
      if selected.Some? && selected.value.netID in c.bannedItems {
        bannedItems := bannedItems + [selected.value];
      }
      assert bannedItems == BannedSelection(c.bannedItems, selected);
      bannedItems := bannedItems + Filter(p.miscEquips, IsBanned(c.bannedItems));
      bannedItems := bannedItems + Filter(p.armor, IsBanned(c.bannedItems));
      if |bannedItems| > 0 {
        infringements := infringements + [BannedItem];
      }
    }
  }

  /** The prefix, armour and slot checks of OnPlayerUpdate, appended to `s`. */
  method CheckEquipment(c: C.Configuration, t: PrefixTables, p: Player, s: seq<Infringement>)
    returns (infringements: seq<Infringement>)
    requires WellFormed(p)
    ensures var f := Evaluate(c, t, p);
      infringements == Then(Then(Then(Then(Then(s,
        f.illegalPrefix, IllegalPrefix), f.prefixedAmmo, PrefixedAmmo), f.prefixedArmour, PrefixedArmour),
        f.duplication, Duplication), f.seventhSlot, SeventhSlot)
  {
    ghost var f := Evaluate(c, t, p);
    infringements := s;
    var selected := Selected(p);
    if Active(c.enablePrefixCheck, p, UseIllegalWeps) {
      if selected.Some? && IllegallyPrefixed(selected.value, t) {
        infringements := infringements + [IllegalPrefix];
      }
    }
    assert infringements == Then(s, f.illegalPrefix, IllegalPrefix);

    if PrefixedAmmoGuard(Active(c.enablePrefixCheck, p, UsePrefixedAmmo), selected) {
      if HasPrefixedAmmo(p.inventory, c.ammoIDs) {
        infringements := infringements + [PrefixedAmmo];
      }
    }
    ghost var s4 := Then(Then(s, f.illegalPrefix, IllegalPrefix), f.prefixedAmmo, PrefixedAmmo);
    assert infringements == s4;

    if Active(c.enablePrefixCheck, p, UsePrefixedArmor) {
      var found := ScanBodyArmour(p.armor);
      if found {
        infringements := infringements + [PrefixedArmour];
      }
    }
    assert infringements == Then(s4, f.prefixedArmour, PrefixedArmour);

    if Active(c.enableDupeCheck, p, HaveDupeAccessories) {
      if DuplicateArmour(p.armor) {
        infringements := infringements + [Duplication];
      }
    }
    if Active(c.enable7thSlotCheck, p, Use7thSlot) {
      if UsesSeventhSlot(p.armor) {
        infringements := infringements + [SeventhSlot];
      }
    }
  }

  /** OnPlayerUpdate's collection phase, step by step as the source runs it:
      the entry gates return early, then the checks append in order. */
  method CollectInfringements(c: C.Configuration, t: PrefixTables, p: Player)
    returns (r: Report)
    requires WellFormed(p)
    ensures r == Detect(c, t, p)
  {
    if !p.hostile || HasPermission(p, UseAll) {
      return NoReport;
    }
    if Active(c.enableRegionCheck, p, IgnoreRegion) {
      if p.currentRegion.None? {
        return NoReport;
      }
      if p.currentRegion.value !in c.restrictedRegions {
        return NoReport;
      }
    }
    var infringements, bannedItems, bannedBuffs := CheckBuffsAndItems(c, t, p);
    infringements := CheckEquipment(c, t, p, infringements);
    DetectPassed(c, t, p);
    r := Report(infringements, bannedItems, bannedBuffs);
  }

  // ---------------------------------------------------------------- as written

  /** The flags as the source computes them, where two checks differ from
      Evaluate: the duplicate-buff check counts empty slots, and the
      duplication check compares the slots' objects, `armorRefs` naming the
      object each slot holds. */
  function EvaluateAsWritten(c: C.Configuration, t: PrefixTables, p: Player, armorRefs: seq<int>): Flags
    requires WellFormed(p) && |armorRefs| == |p.armor|
  {
    Evaluate(c, t, p).(
      duplicateBuff := Active(c.enableBuffCheck, p, UseBannedBuffs) && DuplicateBuffAsWritten(p.buffType),
      duplication := Active(c.enableDupeCheck, p, HaveDupeAccessories) && DuplicateArmourAsWritten(armorRefs))
  }

  /** OnPlayerUpdate's collection phase exactly as written. None is the
      NullReferenceException of the ammunition guard, for a player who passes
      the gates with nothing selected while the ammunition check applies;
      wherever that guard does not throw it agrees with the null-safe one
      (PrefixedAmmoGuardAgrees). */
  function DetectAsWritten(c: C.Configuration, t: PrefixTables, p: Player, armorRefs: seq<int>): (r: Option<Report>)
    requires WellFormed(p) && |armorRefs| == |p.armor|
    ensures r.None? <==>
      (PassesGate(c.enableRegionCheck, c.restrictedRegions, p)
       && Active(c.enablePrefixCheck, p, UsePrefixedAmmo) && Selected(p).None?)
    ensures r.Some? ==> InPipelineOrder(r.value.infringements)
    ensures r.Some? ==> forall k :: k in r.value.infringements <==>
      PassesGate(c.enableRegionCheck, c.restrictedRegions, p) && Raised(EvaluateAsWritten(c, t, p, armorRefs), k)
  {
    if !PassesGate(c.enableRegionCheck, c.restrictedRegions, p) then Some(NoReport)
    else if PrefixedAmmoGuardAsWritten(Active(c.enablePrefixCheck, p, UsePrefixedAmmo), Selected(p)).None? then None
    else
      var f := EvaluateAsWritten(c, t, p, armorRefs);
      PipelineOrdered(f);
      PipelineMembers(f);
      Some(Report(
        Pipeline(f),
        if Active(c.enableItemCheck, p, UseBannedWeps)
        then BannedItemEvidence(c.bannedItems, Selected(p), p.miscEquips, p.armor) else [],
        if Active(c.enableBuffCheck, p, UseBannedBuffs) then BannedBuffEvidence(c.bannedBuffs, p.buffType) else []))
  }

  /** With no empty buff slot and something selected, the handler as written
      reports what Detect reports, with the same evidence, except for the
      duplication check; where the two duplication checks agree the reports
      are equal. */
  lemma DetectAsWrittenAgrees(c: C.Configuration, t: PrefixTables, p: Player, armorRefs: seq<int>)
    requires WellFormed(p) && |armorRefs| == |p.armor| && Selected(p).Some?
    requires forall i :: 0 <= i < |p.buffType| ==> p.buffType[i] != 0
    ensures DetectAsWritten(c, t, p, armorRefs).Some?
    ensures var w := DetectAsWritten(c, t, p, armorRefs).value; var r := Detect(c, t, p);
      && (forall k :: k != Duplication ==> (k in w.infringements <==> k in r.infringements))
      && w.bannedItems == r.bannedItems && w.bannedBuffs == r.bannedBuffs
    ensures DuplicateArmourAsWritten(armorRefs) == DuplicateArmour(p.armor) ==>
      DetectAsWritten(c, t, p, armorRefs) == Some(Detect(c, t, p))
  {
    if PassesGate(c.enableRegionCheck, c.restrictedRegions, p) {
      var f, w := Evaluate(c, t, p), EvaluateAsWritten(c, t, p, armorRefs);
      DuplicateBuffAgreesWithoutEmptySlots(p.buffType);
      assert w.duplicateBuff == f.duplicateBuff;
      assert forall k :: k != Duplication ==> Raised(w, k) == Raised(f, k);
      if DuplicateArmourAsWritten(armorRefs) == DuplicateArmour(p.armor) {
        assert w == f;
      }
    }
  }

  /** A player in PvP with one buff and two empty buff slots is reported for a
      duplicate buff by the handler as written, and not by Detect. */
  lemma EmptyBuffSlotsReportedAsWritten(c: C.Configuration, t: PrefixTables, p: Player, armorRefs: seq<int>)
    requires WellFormed(p) && |armorRefs| == |p.armor|
    requires PassesGate(c.enableRegionCheck, c.restrictedRegions, p) && Selected(p).Some?
    requires Active(c.enableBuffCheck, p, UseBannedBuffs) && p.buffType == [5, 0, 0]
    ensures DetectAsWritten(c, t, p, armorRefs).Some?
    ensures DuplicateBuff in DetectAsWritten(c, t, p, armorRefs).value.infringements
    ensures DuplicateBuff !in Detect(c, t, p).infringements
  {
    DuplicateBuffCountsEmptySlots();
    DuplicateBuffIff(p.buffType);
    assert EvaluateAsWritten(c, t, p, armorRefs).duplicateBuff;
    assert !Evaluate(c, t, p).duplicateBuff;
  }

  /** With a separate object in every armour slot the handler as written never
      reports Duplication, while Detect reports two slots wearing the same
      item. */
  lemma DuplicationNeverReportedAsWritten(c: C.Configuration, t: PrefixTables, p: Player, armorRefs: seq<int>)
    requires WellFormed(p) && |armorRefs| == |p.armor| && NoDuplicates(armorRefs)
    ensures DetectAsWritten(c, t, p, armorRefs).Some? ==>
      Duplication !in DetectAsWritten(c, t, p, armorRefs).value.infringements
    ensures PassesGate(c.enableRegionCheck, c.restrictedRegions, p) && Active(c.enableDupeCheck, p, HaveDupeAccessories)
      && (exists i, j :: 0 <= i < j < |p.armor| && p.armor[i].netID == p.armor[j].netID && p.armor[i].netID != 0)
      ==> Duplication in Detect(c, t, p).infringements
  {
    SeparateSlotsNeverDuplicate(armorRefs);
    DuplicateArmourIff(p.armor);
  }

  // ---------------------------------------------------------------- the warning

  /** The template each infringement's line uses. */
  function TemplateKey(k: Infringement): Messages.MessageKey {
    match k
    case BannedItem => Messages.BannedItems
    case BannedBuff => Messages.BannedBuff
    case DuplicateBuff => Messages.DuplicateBuff
    case IllegalPrefix => Messages.IllegalPrefix
    case PrefixedArmour => Messages.PrefixedArmor
    case PrefixedAmmo => Messages.PrefixedAmmo
    case Duplication => Messages.DuplicateAccessory
    case SeventhSlot => Messages.UsedSeventhSlot
  }

  /** Banned items and banned buffs are named in their lines. */
  function LineFor(k: Infringement, r: Report): Line {
    Line(TemplateKey(k),
      match k
      case BannedItem => Items(r.bannedItems)
      case BannedBuff => Buffs(r.bannedBuffs)
      case _ => NoEvidence)
  }

  /** One line per infringement, in order. */
  function Lines(infringements: seq<Infringement>, r: Report): (m: seq<Line>)
    ensures |m| == |infringements|
    ensures forall i :: 0 <= i < |m| ==> m[i].key == TemplateKey(infringements[i])
    ensures forall i :: 0 <= i < |m| ==> m[i] == LineFor(infringements[i], r)
  {
    if infringements == [] then []
    else
      var n := |infringements| - 1;
      Lines(infringements[..n], r) + [LineFor(infringements[n], r)]
  }

  const Header: Line := Line(Messages.PlayerHasInfringement, NoEvidence)

  /** The warning: the PlayerHasInfringement header, then one line per
      infringement. */
  function Message(r: Report): (m: seq<Line>)
    ensures |m| == |r.infringements| + 1 && m[0] == Header
    ensures forall i :: 1 <= i < |m| ==> m[i] == LineFor(r.infringements[i - 1], r)
  {
    [Header] + Lines(r.infringements, r)
  }

  /** Rendering one more infringement appends its line. */
  lemma LinesSnoc(s: seq<Infringement>, i: nat, r: Report)
    requires i < |s|
    ensures Lines(s[..i + 1], r) == Lines(s[..i], r) + [LineFor(s[i], r)]
  {
    assert s[..i + 1][..i] == s[..i];
  }

  /** One case of the switch in the StringBuilder loop. */
  method RenderLine(k: Infringement, r: Report) returns (line: Line)
    ensures line == LineFor(k, r)
  {
    match k {
      case BannedItem => line := Line(Messages.BannedItems, Items(r.bannedItems));
      case BannedBuff => line := Line(Messages.BannedBuff, Buffs(r.bannedBuffs));
      case DuplicateBuff => line := Line(Messages.DuplicateBuff, NoEvidence);
      case IllegalPrefix => line := Line(Messages.IllegalPrefix, NoEvidence);
      case PrefixedArmour => line := Line(Messages.PrefixedArmor, NoEvidence);
      case PrefixedAmmo => line := Line(Messages.PrefixedAmmo, NoEvidence);
      case Duplication => line := Line(Messages.DuplicateAccessory, NoEvidence);
      case SeventhSlot => line := Line(Messages.UsedSeventhSlot, NoEvidence);
    }
  }

  /** The StringBuilder loop over the infringements. */
  method BuildMessage(r: Report) returns (lines: seq<Line>)
    ensures lines == Message(r)
  {
    lines := [Header];
    var i := 0;
    while i < |r.infringements|
      invariant 0 <= i <= |r.infringements|
      invariant lines == [Header] + Lines(r.infringements[..i], r)
    {
      var line := RenderLine(r.infringements[i], r);
      LinesSnoc(r.infringements, i, r);
      assert lines + [line] == [Header] + Lines(r.infringements[..i + 1], r);
      lines := lines + [line];
      i := i + 1;
    }
    assert r.infringements[..i] == r.infringements;
  }

  /** Distinct infringements render distinct lines: a warning never repeats a
      template after its header. */
  lemma MessageLinesDistinct(r: Report)
    requires InPipelineOrder(r.infringements)
    ensures var m := Message(r);
      forall i, j :: 1 <= i < j < |m| ==> m[i].key != m[j].key
  {
    var l := Lines(r.infringements, r);
    assert Message(r) == [Header] + l;
    forall i, j | 0 <= i < j < |l| ensures l[i].key != l[j].key {
      assert Stage(r.infringements[i]) < Stage(r.infringements[j]);
    }
  }

  /** The header and every line template are defined by a fresh record. */
  lemma MessageTemplatesDefined(r: Report)
    ensures forall i :: 0 <= i < |Message(r)| ==> Message(r)[i].key in C.DefaultMessages
  {
    MessageKeysDefined(r);
    C.DefaultMessagesKeys();
  }

  /** The same, stated against Defines. */
  lemma MessageKeysDefined(r: Report)
    ensures forall i :: 0 <= i < |Message(r)| ==> C.Defines(Message(r)[i].key)
  {
    C.InfringementDefines();
    var m := Message(r);
    var lines := Lines(r.infringements, r);
    forall i | 0 <= i < |m| ensures C.Defines(m[i].key) {
      if i > 0 {
        assert m[i] == lines[i - 1];
        TemplateKeyDefined(r.infringements[i - 1]);
      }
    }
  }

  /** Every infringement's template is one the current record defines. */
  lemma TemplateKeyDefined(k: Infringement)
    ensures C.Defines(TemplateKey(k))
  {
    C.InfringementDefines();
  }

  /** A fresh current record holds every template of the warning, but not the
      template of the notice OnTogglePvPOn sends, so that notice is dropped. */
  lemma DefaultRecordRenders(r: Report, id: PlayerId)
    ensures Renders(Message(r), C.Default().messages)
    ensures Deliver(Send(id, InfoMessage, [Line(Messages.BannedBuffs, NoEvidence)]), C.Default().messages) == []
  {
    var messages := C.Default().messages;
    assert messages == C.DefaultMessages;
    MessageTemplatesDefined(r);
    C.BuffNoticeTemplateMissing();
    var notice := Send(id, InfoMessage, [Line(Messages.BannedBuffs, NoEvidence)]);
    assert notice.lines[0].key !in messages;
    assert !Renders(notice.lines, messages);
  }

  // ---------------------------------------------------------------- notices

  /** OnRegionEntered: a player entering a restricted region is told so when
      the notice and the region check are on and the player is not exempt. */
  predicate RegionNoticeSent(c: C.Configuration, player: Option<Player>, region: string) {
    && c.notifyEnterRestrictedRegion
    && c.enableRegionCheck
    && region in c.restrictedRegions
    && player.Some?
    && !HasPermission(player.value, IgnoreRegion)
  }

  /** OnTogglePvPOn: with the buff check on for this player, and inside a
      restricted region where the region check applies, the player is told
      that banned buffs will be cancelled. */
  predicate BuffNoticeSent(c: C.Configuration, p: Player) {
    && Active(c.enableBuffCheck, p, UseBannedBuffs)
    && InCheckedRegion(c.enableRegionCheck, c.restrictedRegions, p)
  }

  // ---------------------------------------------------------------- the plugin

  class Plugin {
    var config: C.Configuration
    var illegalMeleePrefixes: seq<int>
    var illegalRangedPrefixes: seq<int>
    var illegalMagicPrefixes: seq<int>
    /** The "pvpchecks_lastwarned" data of each player. */
    var lastWarned: map<PlayerId, int>
    /** Everything the plugin has asked the host to do, oldest first. */
    var outbox: seq<Action>

    function Tables(): PrefixTables
      reads this
    {
      PrefixTables(illegalMeleePrefixes, illegalRangedPrefixes, illegalMagicPrefixes)
    }

    /** The plugin object before GameInitialize: empty prefix lists, nobody
        warned, nothing sent. The source leaves the record null until OnInit
        loads it; no hook runs before that, and the model starts from the
        default record instead. */
    constructor ()
      ensures config == C.Default()
      ensures illegalMeleePrefixes == [] && illegalRangedPrefixes == [] && illegalMagicPrefixes == []
      ensures lastWarned == map[] && outbox == []
    {
      config := C.Default();
      illegalMeleePrefixes := [];
      illegalRangedPrefixes := [];
      illegalMagicPrefixes := [];
      lastWarned := map[];
      outbox := [];
    }

    /** OnInit: install the record read from disk and append the derived
        illegal prefixes to the three lists. */
    method OnInit(loaded: C.Configuration)
      modifies this
      ensures config == loaded
      ensures illegalMeleePrefixes == old(illegalMeleePrefixes) + loaded.rangedPrefixIDs + loaded.magicPrefixIDs
      ensures illegalRangedPrefixes == old(illegalRangedPrefixes) + loaded.meleePrefixIDs + loaded.magicPrefixIDs
      ensures illegalMagicPrefixes == old(illegalMagicPrefixes) + loaded.meleePrefixIDs + loaded.rangedPrefixIDs
      ensures old(Tables()) == PrefixTables([], [], []) ==>
        Tables() == DeriveIllegal(loaded.meleePrefixIDs, loaded.rangedPrefixIDs, loaded.magicPrefixIDs)
      ensures lastWarned == old(lastWarned) && outbox == old(outbox)
    {
      config := loaded;
      illegalMeleePrefixes := illegalMeleePrefixes + config.rangedPrefixIDs;
      illegalMeleePrefixes := illegalMeleePrefixes + config.magicPrefixIDs;
      illegalRangedPrefixes := illegalRangedPrefixes + config.meleePrefixIDs;
      illegalRangedPrefixes := illegalRangedPrefixes + config.magicPrefixIDs;
      illegalMagicPrefixes := illegalMagicPrefixes + config.meleePrefixIDs;
      illegalMagicPrefixes := illegalMagicPrefixes + config.rangedPrefixIDs;
    }

    /** OnReload: the record is replaced, the derived prefix lists are not. */
    method OnReload(loaded: C.Configuration, requester: Option<PlayerId>)
      modifies this
      ensures config == loaded
      ensures Tables() == old(Tables())
      ensures lastWarned == old(lastWarned)
      ensures outbox == old(outbox) + (if requester.Some? then [ReloadConfirmed(requester.value)] else [])
    {
      config := loaded;
      if requester.Some? {
        outbox := outbox + [ReloadConfirmed(requester.value)];
      }
    }

    /** Send `a`; a template missing from the record throws instead, and the
        handler goes no further. */
    method Reply(a: Action)
      modifies this`outbox
      ensures outbox == old(outbox) + Deliver(a, config.messages)
    {
      if a.Send? && !Renders(a.lines, config.messages) {
        return;
      }
      outbox := outbox + [a];
    }

    /** The enforcement half of OnPlayerUpdate, for a non-empty report. */
    method Punish(id: PlayerId, r: Report, now: int)
      modifies this
      ensures config == old(config) && Tables() == old(Tables())
      ensures var o := Enforcement.Enforce(id, config.disablePvP, config.messageDisplayDelayInMS,
                                           old(lastWarned), now, Message(r), config.messages);
        outbox == old(outbox) + o.actions && lastWarned == o.lastWarned
    {
      Enforcement.EnforceSteps(id, config.disablePvP, config.messageDisplayDelayInMS, lastWarned, now, Message(r), config.messages);
      outbox := outbox + [Disable(id)];
      if config.disablePvP {
        outbox := outbox + [SetPvP(id, false)];
      }
      ghost var penalties := [Disable(id)] + (if config.disablePvP then [SetPvP(id, false)] else []);
      assert outbox == old(outbox) + penalties;
      if id in lastWarned && now - lastWarned[id] < config.messageDisplayDelayInMS {
        return;
      }
      var lines := BuildMessage(r);
      if !Renders(lines, config.messages) {
        // A template missing from the record throws out of the loop above.
        return;
      }
      lastWarned := lastWarned[id := Enforcement.Stamp(now)];
      outbox := outbox + [Send(id, ErrorMessage, lines)];
      assert outbox == old(outbox) + (penalties + [Send(id, ErrorMessage, lines)]);
    }

    /** OnPlayerUpdate: collect, then enforce with the warning cooldown. */
    method OnPlayerUpdate(id: PlayerId, player: Option<Player>, now: int)
      requires player.Some? ==> WellFormed(player.value)
      modifies this
      ensures config == old(config) && Tables() == old(Tables())
      ensures player.None? ==> lastWarned == old(lastWarned) && outbox == old(outbox)
      ensures player.Some? ==>
        var r := Detect(config, Tables(), player.value);
        && (r.infringements == [] ==> lastWarned == old(lastWarned) && outbox == old(outbox))
        && (r.infringements != [] ==>
              var o := Enforcement.Enforce(id, config.disablePvP, config.messageDisplayDelayInMS,
                                           old(lastWarned), now, Message(r), config.messages);
              outbox == old(outbox) + o.actions && lastWarned == o.lastWarned)
    {
      if player.None? {
        return;
      }
      var r := CollectInfringements(config, Tables(), player.value);
      if |r.infringements| > 0 {
        Punish(id, r, now);
      }
    }

    /** OnRegionEntered. */
    method OnRegionEntered(id: PlayerId, player: Option<Player>, region: string)
      modifies this
      ensures config == old(config) && Tables() == old(Tables()) && lastWarned == old(lastWarned)
      ensures outbox == old(outbox) +
        (if RegionNoticeSent(config, player, region)
         then Deliver(Send(id, InfoMessage, [Line(Messages.RegionRestricted, NoEvidence)]), config.messages) else [])
    {
      if !config.notifyEnterRestrictedRegion { return; }
      if !config.enableRegionCheck { return; }
      if region !in config.restrictedRegions { return; }
      if player.None? { return; }
      if HasPermission(player.value, IgnoreRegion) { return; }
      Reply(Send(id, InfoMessage, [Line(Messages.RegionRestricted, NoEvidence)]));
    }

    /** OnTogglePvPOn. */
    method OnTogglePvPOn(id: PlayerId, p: Player)
      modifies this
      ensures config == old(config) && Tables() == old(Tables()) && lastWarned == old(lastWarned)
      ensures outbox == old(outbox) +
        (if BuffNoticeSent(config, p) then Deliver(Send(id, InfoMessage, [Line(Messages.BannedBuffs, NoEvidence)]), config.messages) else [])
    {
      if Active(config.enableBuffCheck, p, UseBannedBuffs) {
        if Active(config.enableRegionCheck, p, IgnoreRegion) {
          if p.currentRegion.None? { return; }
          if p.currentRegion.value !in config.restrictedRegions { return; }
        }
        Reply(Send(id, InfoMessage, [Line(Messages.BannedBuffs, NoEvidence)]));
      }
    }

    /** additem/removeitem: `matches` is what GetItemByIdOrName returned for
        the second parameter. */
    method EditBannedItems(sender: PlayerId, permissions: set<string>, add: bool, paramCount: nat, matches: seq<Item>)
      modifies this
      ensures Tables() == old(Tables()) && lastWarned == old(lastWarned)
      ensures CommandEdit !in permissions ==>
        config == old(config) && outbox == old(outbox) + Deliver(ErrorReply(sender, Messages.NoPermission, NoEvidence), config.messages)
      ensures CommandEdit in permissions && paramCount != 2 ==>
        config == old(config) && outbox == old(outbox) + Deliver(ErrorReply(sender, Messages.InvalidSyntaxAddDelItem, NoEvidence), config.messages)
      ensures CommandEdit in permissions && paramCount == 2 && Lookup.SingleMatch(matches).Failure? ==>
        config == old(config)
        && outbox == old(outbox) + Deliver(LookupReply(sender, Lookup.SingleMatch(matches).error, Messages.InvalidItemType), config.messages)
      ensures CommandEdit in permissions && paramCount == 2 && |matches| == 1 ==>
        var e := BanLists.Edit(old(config.bannedItems), matches[0].netID, add);
        && config == (if e.Edited? then old(config).(bannedItems := e.list) else old(config))
        && outbox == old(outbox) + Deliver(BanLists.EditReply(sender, e, add, BanLists.ItemMessages, Items([matches[0]])), config.messages)
    {
      if CommandEdit !in permissions {
        Reply(ErrorReply(sender, Messages.NoPermission, NoEvidence));
        return;
      }
      if paramCount != 2 {
        Reply(ErrorReply(sender, Messages.InvalidSyntaxAddDelItem, NoEvidence));
        return;
      }
      var found := Lookup.SingleMatch(matches);
      if found.Failure? {
        Reply(LookupReply(sender, found.error, Messages.InvalidItemType));
        return;
      }
      var item := found.value;
      var e := BanLists.Edit(config.bannedItems, item.netID, add);
      if e.Edited? {
        config := config.(bannedItems := e.list);
      }
      Reply(BanLists.EditReply(sender, e, add, BanLists.ItemMessages, Items([item])));
    }

    /** addproj/removeproj: `projectile` is the second parameter parsed by
        Int32.Parse. */
    method EditBannedProjectiles(sender: PlayerId, permissions: set<string>, add: bool, paramCount: nat, projectile: int)
      modifies this
      ensures Tables() == old(Tables()) && lastWarned == old(lastWarned)
      ensures CommandEdit !in permissions ==>
        config == old(config) && outbox == old(outbox) + Deliver(ErrorReply(sender, Messages.NoPermission, NoEvidence), config.messages)
      ensures CommandEdit in permissions && paramCount != 2 ==>
        config == old(config)
        && outbox == old(outbox) + Deliver(ErrorReply(sender, Messages.InvalidSyntaxAddDelProjectile, NoEvidence), config.messages)
      ensures CommandEdit in permissions && paramCount == 2 ==>
        var e := BanLists.Edit(old(config.bannedProjectiles), projectile, add);
        && config == (if e.Edited? then old(config).(bannedProjectiles := e.list) else old(config))
        && outbox == old(outbox) + Deliver(BanLists.EditReply(sender, e, add, BanLists.ProjectileMessages, Projectiles([projectile])), config.messages)
    {
      if CommandEdit !in permissions {
        Reply(ErrorReply(sender, Messages.NoPermission, NoEvidence));
        return;
      }
      if paramCount != 2 {
        Reply(ErrorReply(sender, Messages.InvalidSyntaxAddDelProjectile, NoEvidence));
        return;
      }
      var e := BanLists.Edit(config.bannedProjectiles, projectile, add);
      if e.Edited? {
        config := config.(bannedProjectiles := e.list);
      }
      Reply(BanLists.EditReply(sender, e, add, BanLists.ProjectileMessages, Projectiles([projectile])));
    }

    /** addregion/removeregion: `region` is the name GetRegionByName found for
        `argument`, if any. */
    method EditRestrictedRegions(sender: PlayerId, permissions: set<string>, add: bool, paramCount: nat,
                                 argument: string, region: Option<string>)
      modifies this
      ensures Tables() == old(Tables()) && lastWarned == old(lastWarned)
      ensures CommandEdit !in permissions ==>
        config == old(config) && outbox == old(outbox) + Deliver(ErrorReply(sender, Messages.NoPermission, NoEvidence), config.messages)
      ensures CommandEdit in permissions && paramCount != 2 ==>
        config == old(config)
        && outbox == old(outbox) + Deliver(ErrorReply(sender, Messages.InvalidSyntaxAddDelRegion, NoEvidence), config.messages)
      ensures CommandEdit in permissions && paramCount == 2 && region.None? ==>
        config == old(config)
        && outbox == old(outbox) + Deliver(ErrorReply(sender, Messages.NoSuchRegion, Argument(argument)), config.messages)
      ensures CommandEdit in permissions && paramCount == 2 && region.Some? ==>
        var e := BanLists.Edit(old(config.restrictedRegions), region.value, add);
        && config == (if e.Edited? then old(config).(restrictedRegions := e.list) else old(config))
        && outbox == old(outbox) + Deliver(BanLists.EditReply(sender, e, add, BanLists.RegionMessages, Regions([region.value])), config.messages)
    {
      if CommandEdit !in permissions {
        Reply(ErrorReply(sender, Messages.NoPermission, NoEvidence));
        return;
      }
      if paramCount != 2 {
        Reply(ErrorReply(sender, Messages.InvalidSyntaxAddDelRegion, NoEvidence));
        return;
      }
      if region.None? {
        Reply(ErrorReply(sender, Messages.NoSuchRegion, Argument(argument)));
        return;
      }
      var name := region.value;
      var e := BanLists.Edit(config.restrictedRegions, name, add);
      if e.Edited? {
        config := config.(restrictedRegions := e.list);
      }
      Reply(BanLists.EditReply(sender, e, add, BanLists.RegionMessages, Regions([name])));
    }

    /** addbuff/removebuff: `parsed` is Int32.TryParse of the second
        parameter and `byName` what GetBuffByName returned for it. */
    method EditBannedBuffs(sender: PlayerId, permissions: set<string>, add: bool, paramCount: nat,
                           parsed: Option<int>, byName: seq<int>)
      modifies this
      ensures Tables() == old(Tables()) && lastWarned == old(lastWarned)
      ensures CommandEdit !in permissions ==>
        config == old(config) && outbox == old(outbox) + Deliver(ErrorReply(sender, Messages.NoPermission, NoEvidence), config.messages)
      ensures CommandEdit in permissions && paramCount != 2 ==>
        config == old(config)
        && outbox == old(outbox) + Deliver(ErrorReply(sender, Messages.InvalidSyntaxAddDelBuff, NoEvidence), config.messages)
      ensures CommandEdit in permissions && paramCount == 2 && Lookup.BuffFromString(parsed, byName).Failure? ==>
        config == old(config)
        && outbox == old(outbox)
           + Deliver(LookupReply(sender, Lookup.BuffFromString(parsed, byName).error, Messages.InvalidBuffType), config.messages)
      ensures CommandEdit in permissions && paramCount == 2 && Lookup.BuffFromString(parsed, byName).Success? ==>
        var buff := Lookup.BuffFromString(parsed, byName).value;
        var e := BanLists.Edit(old(config.bannedBuffs), buff, add);
        if buff < 0 then config == old(config) && outbox == old(outbox)
        else
          && config == (if e.Edited? then old(config).(bannedBuffs := e.list) else old(config))
          && outbox == old(outbox) + Deliver(BanLists.EditReply(sender, e, add, BanLists.BuffMessages, Buffs([buff])), config.messages)
    {
      if CommandEdit !in permissions {
        Reply(ErrorReply(sender, Messages.NoPermission, NoEvidence));
        return;
      }
      if paramCount != 2 {
        Reply(ErrorReply(sender, Messages.InvalidSyntaxAddDelBuff, NoEvidence));
        return;
      }
      var found := Lookup.BuffFromString(parsed, byName);
      if found.Failure? {
        Reply(LookupReply(sender, found.error, Messages.InvalidBuffType));
        return;
      }
      var buff := found.value;
      if buff < 0 {
        return;
      }
      if !add {
        if buff !in config.bannedBuffs {
          Reply(ErrorReply(sender, Messages.BuffRemoveNotExist, Buffs([buff])));
          return;
        }
        config := config.(bannedBuffs := RemoveFirst(config.bannedBuffs, buff));
        Reply(Send(sender, SuccessMessage, [Line(Messages.SuccessDelBuff, Buffs([buff]))]));
        return;
      }
      if buff in config.bannedBuffs {
        Reply(ErrorReply(sender, Messages.BuffAddAlreadyExist, Buffs([buff])));
        return;
      }
      config := config.(bannedBuffs := config.bannedBuffs + [buff]);
      Reply(Send(sender, SuccessMessage, [Line(Messages.SuccessAddBuff, Buffs([buff]))]));
    }
  }
}
