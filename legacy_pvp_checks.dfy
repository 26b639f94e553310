/** The older plugin (Main.cs at the repository root): banned buffs are
    stripped from the player instead of being reported, there is no duplicate
    buff check, and the buff commands take any integer. */
module LegacyPvPChecks {
  import opened Collections
  import opened Host
  import opened Checks
  import opened Commands
  import Messages
  import L = LegacyConfiguration
  import BanLists
  import Lookup
  import Enforcement

  /** The settings the older plugin reads from its record although
      Configuration.cs at the root does not declare them. */
  datatype Toggles = Toggles(
    enableRegionCheck: bool,
    enableBuffCheck: bool,
    enableItemCheck: bool,
    enablePrefixCheck: bool,
    enableDupeCheck: bool,
    enable7thSlotCheck: bool,
    disablePvP: bool,
    notifyEnterRestrictedRegion: bool,
    messageDisplayDelayInMS: int)

  /** BannedBuff is declared but no check adds it. */
  datatype Infringement =
    | BannedItem | BannedBuff | IllegalPrefix | PrefixedArmour | PrefixedAmmo | Duplication | SeventhSlot

  /** The position of each check in OnPlayerUpdate; BannedBuff, never added,
      comes last. */
  function Stage(k: Infringement): nat {
    match k
    case BannedItem => 0
    case IllegalPrefix => 1
    case PrefixedAmmo => 2
    case PrefixedArmour => 3
    case Duplication => 4
    case SeventhSlot => 5
    case BannedBuff => 6
  }

  predicate InPipelineOrder(s: seq<Infringement>) {
    forall i, j :: 0 <= i < j < |s| ==> Stage(s[i]) < Stage(s[j])
  }

  /** What one update collects: the infringements, the banned items named in
      the warning, and the banned buffs to strip. */
  datatype Report = Report(infringements: seq<Infringement>, bannedItems: seq<Item>, strippedBuffs: seq<int>)

  const NoReport: Report := Report([], [], [])

  /** The outcome of each of the six equipment checks. */
  datatype Flags = Flags(
    bannedItem: bool, illegalPrefix: bool, prefixedAmmo: bool,
    prefixedArmour: bool, duplication: bool, seventhSlot: bool)

  function Raised(f: Flags, k: Infringement): bool {
    match k
    case BannedItem => f.bannedItem
    case IllegalPrefix => f.illegalPrefix
    case PrefixedAmmo => f.prefixedAmmo
    case PrefixedArmour => f.prefixedArmour
    case Duplication => f.duplication
    case SeventhSlot => f.seventhSlot
    case BannedBuff => false
  }

  /** Each equipment check of OnPlayerUpdate, gated by its toggle and its
      exemption. */
  function Evaluate(c: L.Configuration, g: Toggles, t: PrefixTables, p: Player): Flags
    requires WellFormed(p)
  {
    Flags(
      bannedItem := Active(g.enableItemCheck, p, UseBannedWeps)
        && |BannedItemEvidence(c.bannedItems, Selected(p), p.miscEquips, p.armor)| > 0,
      illegalPrefix := Active(g.enablePrefixCheck, p, UseIllegalWeps)
        && Selected(p).Some? && IllegallyPrefixed(Selected(p).value, t),
      prefixedAmmo := PrefixedAmmoGuard(Active(g.enablePrefixCheck, p, UsePrefixedAmmo), Selected(p))
        && HasPrefixedAmmo(p.inventory, c.ammoIDs),
      prefixedArmour := Active(g.enablePrefixCheck, p, UsePrefixedArmor) && HasPrefixedBodyArmour(p.armor),
      duplication := Active(g.enableDupeCheck, p, HaveDupeAccessories) && DuplicateArmour(p.armor),
      seventhSlot := Active(g.enable7thSlotCheck, p, Use7thSlot) && UsesSeventhSlot(p.armor))
  }

  function Then(s: seq<Infringement>, raised: bool, k: Infringement): seq<Infringement> {
    if raised then s + [k] else s
  }

  predicate Below(s: seq<Infringement>, n: nat) {
    InPipelineOrder(s) && forall i :: 0 <= i < |s| ==> Stage(s[i]) < n
  }

  lemma ThenStep(s: seq<Infringement>, raised: bool, k: Infringement)
    requires Below(s, Stage(k))
    ensures Below(Then(s, raised, k), Stage(k) + 1)
  {
  }

  /** The infringement list the checks build, one check at a time. */
  function Pipeline(f: Flags): seq<Infringement> {
    Then(Then(Then(Then(Then(Then([],
      f.bannedItem, BannedItem), f.illegalPrefix, IllegalPrefix), f.prefixedAmmo, PrefixedAmmo),
      f.prefixedArmour, PrefixedArmour), f.duplication, Duplication), f.seventhSlot, SeventhSlot)
  }

  /** The first three checks report in order, below PrefixedArmour. */
  lemma ItemAndPrefixStagesOrdered(f: Flags)
    ensures Below(Then(Then(Then([],
      f.bannedItem, BannedItem), f.illegalPrefix, IllegalPrefix), f.prefixedAmmo, PrefixedAmmo),
      Stage(PrefixedArmour))
  {
    var s0 := Then([], f.bannedItem, BannedItem);
    ThenStep([], f.bannedItem, BannedItem);
    var s1 := Then(s0, f.illegalPrefix, IllegalPrefix);
    ThenStep(s0, f.illegalPrefix, IllegalPrefix);
    ThenStep(s1, f.prefixedAmmo, PrefixedAmmo);
  }

  /** The checks report in the order they run, each at most once. */
  lemma PipelineOrdered(f: Flags)
    ensures InPipelineOrder(Pipeline(f))
  {
    var s2 := Then(Then(Then([],
      f.bannedItem, BannedItem), f.illegalPrefix, IllegalPrefix), f.prefixedAmmo, PrefixedAmmo);
    ItemAndPrefixStagesOrdered(f);
    var s3 := Then(s2, f.prefixedArmour, PrefixedArmour);
    ThenStep(s2, f.prefixedArmour, PrefixedArmour);
    var s4 := Then(s3, f.duplication, Duplication);
    ThenStep(s3, f.duplication, Duplication);
    ThenStep(s4, f.seventhSlot, SeventhSlot);
  }

  lemma InThen(s: seq<Infringement>, raised: bool, k: Infringement, x: Infringement)
    ensures x in Then(s, raised, k) <==> x in s || (raised && x == k)
  {
  }

  /** An infringement is in the list exactly when its check fired. */
  lemma PipelineMembers(f: Flags)
    ensures forall k :: k in Pipeline(f) <==> Raised(f, k)
  {
    var s0 := Then([], f.bannedItem, BannedItem);
    var s1 := Then(s0, f.illegalPrefix, IllegalPrefix);
    var s2 := Then(s1, f.prefixedAmmo, PrefixedAmmo);
    var s3 := Then(s2, f.prefixedArmour, PrefixedArmour);
    var s4 := Then(s3, f.duplication, Duplication);
    var s5 := Then(s4, f.seventhSlot, SeventhSlot);
    forall k ensures k in s5 <==> Raised(f, k) {
      InThen(s4, f.seventhSlot, SeventhSlot, k);
      InThen(s3, f.duplication, Duplication, k);
      InThen(s2, f.prefixedArmour, PrefixedArmour, k);
      InThen(s1, f.prefixedAmmo, PrefixedAmmo, k);
      InThen(s0, f.illegalPrefix, IllegalPrefix, k);
      InThen([], f.bannedItem, BannedItem, k);
    }
  }

  /** Everything one PlayerUpdate collects, before any action is taken. */
  function Detect(c: L.Configuration, g: Toggles, t: PrefixTables, p: Player): (r: Report)
    requires WellFormed(p)
    ensures !PassesGate(g.enableRegionCheck, c.restrictedRegions, p) ==> r == NoReport
    ensures InPipelineOrder(r.infringements)
    ensures forall k :: k in r.infringements <==>
      PassesGate(g.enableRegionCheck, c.restrictedRegions, p) && Raised(Evaluate(c, g, t, p), k)
    ensures r.bannedItems != [] <==> BannedItem in r.infringements
    ensures BannedItem in r.infringements ==>
      r.bannedItems == BannedItemEvidence(c.bannedItems, Selected(p), p.miscEquips, p.armor)
    ensures r.strippedBuffs ==
      if PassesGate(g.enableRegionCheck, c.restrictedRegions, p) && Active(g.enableBuffCheck, p, UseBannedBuffs)
      then BannedBuffSlots(c.bannedBuffs, p.buffType) else []
  {
    if !PassesGate(g.enableRegionCheck, c.restrictedRegions, p) then NoReport
    else
      PipelineOrdered(Evaluate(c, g, t, p));
      PipelineMembers(Evaluate(c, g, t, p));
      Report(
        Pipeline(Evaluate(c, g, t, p)),
        if Active(g.enableItemCheck, p, UseBannedWeps)
        then BannedItemEvidence(c.bannedItems, Selected(p), p.miscEquips, p.armor) else [],
        if Active(g.enableBuffCheck, p, UseBannedBuffs) then BannedBuffSlots(c.bannedBuffs, p.buffType) else [])
  }

  /** A proof step for CollectInfringements, not a property: the report of a
      player who passes the entry gates, spelled out. */
  lemma DetectPassed(c: L.Configuration, g: Toggles, t: PrefixTables, p: Player)
    requires WellFormed(p) && PassesGate(g.enableRegionCheck, c.restrictedRegions, p)
    ensures Detect(c, g, t, p) == Report(
      Pipeline(Evaluate(c, g, t, p)),
      if Active(g.enableItemCheck, p, UseBannedWeps)
      then BannedItemEvidence(c.bannedItems, Selected(p), p.miscEquips, p.armor) else [],
      if Active(g.enableBuffCheck, p, UseBannedBuffs) then BannedBuffSlots(c.bannedBuffs, p.buffType) else [])
  {
  }

  /** A banned buff is never an infringement here, whatever the player has. */
  lemma BannedBuffNeverReported(c: L.Configuration, g: Toggles, t: PrefixTables, p: Player)
    requires WellFormed(p)
    ensures BannedBuff !in Detect(c, g, t, p).infringements
  {
  }

  /** A banned buff held in two slots is stripped twice: the strip list keeps
      repeats, where the current plugin's evidence names the buff once. */
  lemma StrippedBuffsKeepRepeats(banned: seq<int>, buffType: seq<int>, i: nat, j: nat)
    requires i < j < |buffType| && buffType[i] == buffType[j] && buffType[i] in banned
    ensures multiset(BannedBuffSlots(banned, buffType))[buffType[i]] == multiset(buffType)[buffType[i]] >= 2
    ensures multiset(BannedBuffEvidence(banned, buffType))[buffType[i]] == 1
  {
    RepeatOccursTwice(buffType, i, j);
    NoDuplicatesOccursOnce(BannedBuffEvidence(banned, buffType), buffType[i]);
  }

  /** A player outside PvP, or holding pvpchecks.useall, is left alone: no
      infringement and no buff stripped. */
  lemma ExemptPlayersUntouched(c: L.Configuration, g: Toggles, t: PrefixTables, p: Player)
    requires WellFormed(p)
    requires !p.hostile || HasPermission(p, UseAll)
    ensures Detect(c, g, t, p) == NoReport
  {
  }

  // ---------------------------------------------------------------- the collector

  /** The banned-item check of OnPlayerUpdate, with its evidence. */
  method CheckItems(c: L.Configuration, g: Toggles, t: PrefixTables, p: Player)
    returns (infringements: seq<Infringement>, bannedItems: seq<Item>)
    requires WellFormed(p)
    ensures infringements == Then([], Evaluate(c, g, t, p).bannedItem, BannedItem)
    ensures bannedItems == if Active(g.enableItemCheck, p, UseBannedWeps)
      then BannedItemEvidence(c.bannedItems, Selected(p), p.miscEquips, p.armor) else []
  {
    infringements := [];
    bannedItems := [];
    var selected := Selected(p);
    if Active(g.enableItemCheck, p, UseBannedWeps) {
      if selected.Some? && selected.value.netID in c.bannedItems {
        bannedItems := bannedItems + [selected.value];
      }
      assert bannedItems == BannedSelection(c.bannedItems, selected);
      bannedItems := bannedItems + Filter(p.miscEquips, IsBanned(c.bannedItems));
      bannedItems := bannedItems + Filter(p.armor, IsBanned(c.bannedItems));
      if |bannedItems| > 0 {
        infringements := infringements + [BannedItem];
      }
    }
  }

  /** The prefix, armour and slot checks of OnPlayerUpdate, appended to `s`. */
  method CheckEquipment(c: L.Configuration, g: Toggles, t: PrefixTables, p: Player,
                        s: seq<Infringement>)
    returns (infringements: seq<Infringement>)
    requires WellFormed(p)
    ensures var f := Evaluate(c, g, t, p);
      infringements == Then(Then(Then(Then(Then(s,
        f.illegalPrefix, IllegalPrefix), f.prefixedAmmo, PrefixedAmmo), f.prefixedArmour, PrefixedArmour),
        f.duplication, Duplication), f.seventhSlot, SeventhSlot)
  {
    ghost var f := Evaluate(c, g, t, p);
    infringements := s;
    var selected := Selected(p);
    if Active(g.enablePrefixCheck, p, UseIllegalWeps) {
      if selected.Some? && IllegallyPrefixed(selected.value, t) {
        infringements := infringements + [IllegalPrefix];
      }
    }
    assert infringements == Then(s, f.illegalPrefix, IllegalPrefix);

    if PrefixedAmmoGuard(Active(g.enablePrefixCheck, p, UsePrefixedAmmo), selected) {
      if HasPrefixedAmmo(p.inventory, c.ammoIDs) {
        infringements := infringements + [PrefixedAmmo];
      }
    }
    ghost var s2 := Then(Then(s, f.illegalPrefix, IllegalPrefix), f.prefixedAmmo, PrefixedAmmo);
    assert infringements == s2;

    if Active(g.enablePrefixCheck, p, UsePrefixedArmor) {
      var found := ScanBodyArmour(p.armor);
      if found {
        infringements := infringements + [PrefixedArmour];
      }
    }
    assert infringements == Then(s2, f.prefixedArmour, PrefixedArmour);

    if Active(g.enableDupeCheck, p, HaveDupeAccessories) {
      if DuplicateArmour(p.armor) {
        infringements := infringements + [Duplication];
      }
    }
    if Active(g.enable7thSlotCheck, p, Use7thSlot) {
      if UsesSeventhSlot(p.armor) {
        infringements := infringements + [SeventhSlot];
      }
    }
  }

  /** OnPlayerUpdate's collection phase as the source runs it: the entry gates
      return early, the banned buffs are gathered, then the equipment checks
      append in order. */
  method CollectInfringements(c: L.Configuration, g: Toggles, t: PrefixTables, p: Player)
    returns (r: Report)
    requires WellFormed(p)
    ensures r == Detect(c, g, t, p)
  {
    if !p.hostile || HasPermission(p, UseAll) {
      return NoReport;
    }
    if Active(g.enableRegionCheck, p, IgnoreRegion) {
      if p.currentRegion.None? {
        return NoReport;
      }
      if p.currentRegion.value !in c.restrictedRegions {
        return NoReport;
      }
    }
    var strippedBuffs: seq<int> := [];
    if Active(g.enableBuffCheck, p, UseBannedBuffs) {
      strippedBuffs := BannedBuffSlots(c.bannedBuffs, p.buffType);
    }
    var infringements, bannedItems := CheckItems(c, g, t, p);
    infringements := CheckEquipment(c, g, t, p, infringements);
    DetectPassed(c, g, t, p);
    r := Report(infringements, bannedItems, strippedBuffs);
  }

  // ---------------------------------------------------------------- as written

  /** The flags as the source computes them, where the duplication check
      compares the slots' objects, `armorRefs` naming the object each slot
      holds. */
  function EvaluateAsWritten(c: L.Configuration, g: Toggles, t: PrefixTables, p: Player, armorRefs: seq<int>): Flags
    requires WellFormed(p) && |armorRefs| == |p.armor|
  {
    Evaluate(c, g, t, p).(
      duplication := Active(g.enableDupeCheck, p, HaveDupeAccessories) && DuplicateArmourAsWritten(armorRefs))
  }

  /** How the collection phase as written ends: it throws, after the banned
      buffs are stripped, or it completes with a report. */
  datatype Outcome = Threw(stripped: seq<int>) | Completed(report: Report)

  /** OnPlayerUpdate's collection phase exactly as written. Threw is the
      NullReferenceException of the ammunition guard, which reads
      `selected.ranged` with no null test: it is thrown after the banned-buff
      stage has stripped Detect's `strippedBuffs` and before any penalty. */
  function DetectAsWritten(c: L.Configuration, g: Toggles, t: PrefixTables, p: Player, armorRefs: seq<int>)
    : (r: Outcome)
    requires WellFormed(p) && |armorRefs| == |p.armor|
    ensures r.Threw? <==>
      (PassesGate(g.enableRegionCheck, c.restrictedRegions, p)
       && Active(g.enablePrefixCheck, p, UsePrefixedAmmo) && Selected(p).None?)
    ensures r.Threw? ==> r.stripped == Detect(c, g, t, p).strippedBuffs
    ensures r.Completed? ==> InPipelineOrder(r.report.infringements)
    ensures r.Completed? ==> forall k :: k in r.report.infringements <==>
      PassesGate(g.enableRegionCheck, c.restrictedRegions, p) && Raised(EvaluateAsWritten(c, g, t, p, armorRefs), k)
    ensures r.Completed? ==> r.report.strippedBuffs == Detect(c, g, t, p).strippedBuffs
  {
    var stripped := if Active(g.enableBuffCheck, p, UseBannedBuffs) then BannedBuffSlots(c.bannedBuffs, p.buffType) else [];
    if !PassesGate(g.enableRegionCheck, c.restrictedRegions, p) then Completed(NoReport)
    else if PrefixedAmmoGuardAsWritten(Active(g.enablePrefixCheck, p, UsePrefixedAmmo), Selected(p)).None? then
      Threw(stripped)
    else
      var f := EvaluateAsWritten(c, g, t, p, armorRefs);
      PipelineOrdered(f);
      PipelineMembers(f);
      Completed(Report(
        Pipeline(f),
        if Active(g.enableItemCheck, p, UseBannedWeps)
        then BannedItemEvidence(c.bannedItems, Selected(p), p.miscEquips, p.armor) else [],
        stripped))
  }

  /** With something selected, the handler as written reports what Detect
      reports, with the same evidence and stripped buffs, except for the
      duplication check; where the two duplication checks agree the reports
      are equal. */
  lemma DetectAsWrittenAgrees(c: L.Configuration, g: Toggles, t: PrefixTables, p: Player, armorRefs: seq<int>)
    requires WellFormed(p) && |armorRefs| == |p.armor| && Selected(p).Some?
    ensures DetectAsWritten(c, g, t, p, armorRefs).Completed?
    ensures var w := DetectAsWritten(c, g, t, p, armorRefs).report; var r := Detect(c, g, t, p);
      && (forall k :: k != Duplication ==> (k in w.infringements <==> k in r.infringements))
      && w.bannedItems == r.bannedItems && w.strippedBuffs == r.strippedBuffs
    ensures DuplicateArmourAsWritten(armorRefs) == DuplicateArmour(p.armor) ==>
      DetectAsWritten(c, g, t, p, armorRefs) == Completed(Detect(c, g, t, p))
  {
    if PassesGate(g.enableRegionCheck, c.restrictedRegions, p) {
      var f, w := Evaluate(c, g, t, p), EvaluateAsWritten(c, g, t, p, armorRefs);
      assert forall k :: k != Duplication ==> Raised(w, k) == Raised(f, k);
      if DuplicateArmourAsWritten(armorRefs) == DuplicateArmour(p.armor) {
        assert w == f;
      }
    }
  }

  /** A player in PvP with nothing selected, while the ammunition check
      applies, makes the handler as written throw; Detect skips that one check
      and still reports the others, prefixed body armour for one. */
  lemma UnselectedPlayerThrowsAsWritten(c: L.Configuration, g: Toggles, t: PrefixTables, p: Player, armorRefs: seq<int>)
    requires WellFormed(p) && |armorRefs| == |p.armor| && PassesGate(g.enableRegionCheck, c.restrictedRegions, p)
    requires Active(g.enablePrefixCheck, p, UsePrefixedAmmo) && Selected(p).None?
    ensures DetectAsWritten(c, g, t, p, armorRefs) ==
      Threw(if Active(g.enableBuffCheck, p, UseBannedBuffs) then BannedBuffSlots(c.bannedBuffs, p.buffType) else [])
    ensures PrefixedAmmo !in Detect(c, g, t, p).infringements
    ensures Active(g.enablePrefixCheck, p, UsePrefixedArmor) && HasPrefixedBodyArmour(p.armor) ==>
      PrefixedArmour in Detect(c, g, t, p).infringements
  {
  }

  /** With a separate object in every armour slot the handler as written never
      reports Duplication, while Detect reports two slots wearing the same
      item. */
  lemma DuplicationNeverReportedAsWritten(c: L.Configuration, g: Toggles, t: PrefixTables, p: Player,
                                          armorRefs: seq<int>)
    requires WellFormed(p) && |armorRefs| == |p.armor| && NoDuplicates(armorRefs)
    ensures DetectAsWritten(c, g, t, p, armorRefs).Completed? ==>
      Duplication !in DetectAsWritten(c, g, t, p, armorRefs).report.infringements
    ensures PassesGate(g.enableRegionCheck, c.restrictedRegions, p) && Active(g.enableDupeCheck, p, HaveDupeAccessories)
      && (exists i, j :: 0 <= i < j < |p.armor| && p.armor[i].netID == p.armor[j].netID && p.armor[i].netID != 0)
      ==> Duplication in Detect(c, g, t, p).infringements
  {
    SeparateSlotsNeverDuplicate(armorRefs);
    DuplicateArmourIff(p.armor);
  }

  // ---------------------------------------------------------------- the warning

  /** The line an infringement adds to the warning; BannedBuff adds none. */
  function LineFor(k: Infringement, r: Report): Option<Line> {
    match k
    case BannedItem => Some(Line(Messages.BannedItems, Items(r.bannedItems)))
    case BannedBuff => None
    case IllegalPrefix => Some(Line(Messages.IllegalPrefix, NoEvidence))
    case PrefixedArmour => Some(Line(Messages.PrefixedArmor, NoEvidence))
    case PrefixedAmmo => Some(Line(Messages.PrefixedAmmo, NoEvidence))
    case Duplication => Some(Line(Messages.DuplicateAccessory, NoEvidence))
    case SeventhSlot => Some(Line(Messages.UsedSeventhSlot, NoEvidence))
  }

  function AsLines(l: Option<Line>): seq<Line> {
    if l.Some? then [l.value] else []
  }

  /** The infringements that add a line, in order: all but BannedBuff. */
  function Rendered(s: seq<Infringement>): (k: seq<Infringement>)
    ensures |k| <= |s|
    ensures BannedBuff !in k
    ensures forall i :: 0 <= i < |k| ==> k[i] in s
    ensures BannedBuff !in s ==> k == s
  {
    if s == [] then []
    else
      var n := |s| - 1;
      assert s == s[..n] + [s[n]];
      Rendered(s[..n]) + (if s[n] == BannedBuff then [] else [s[n]])
  }

  /** The lines of the infringements, in order, skipping BannedBuff: the
      i-th line is the one the i-th rendered infringement adds. */
  function Lines(infringements: seq<Infringement>, r: Report): (m: seq<Line>)
    ensures |m| <= |infringements|
    ensures BannedBuff !in infringements ==> |m| == |infringements|
    ensures |m| == |Rendered(infringements)|
    ensures forall i :: 0 <= i < |m| ==> LineFor(Rendered(infringements)[i], r) == Some(m[i])
  {
    if infringements == [] then []
    else
      var n := |infringements| - 1;
      var k := infringements[n];
      var before := Rendered(infringements[..n]);
      assert Rendered(infringements) == before + (if k == BannedBuff then [] else [k]);
      assert LineFor(k, r).None? <==> k == BannedBuff;
      Lines(infringements[..n], r) + AsLines(LineFor(k, r))
  }

  const Header: Line := Line(Messages.PlayerHasInfringement, NoEvidence)

  /** The warning: the PlayerHasInfringement header, then the line of each
      rendered infringement. */
  function Message(r: Report): (m: seq<Line>)
    ensures |m| >= 1 && m[0] == Header
    ensures |m| == 1 + |Rendered(r.infringements)|
    ensures forall i :: 1 <= i < |m| ==> LineFor(Rendered(r.infringements)[i - 1], r) == Some(m[i])
  {
    [Header] + Lines(r.infringements, r)
  }

  /** A BannedBuff entry leaves the warning as it was. */
  lemma BannedBuffRendersNothing(s: seq<Infringement>, r: Report)
    ensures Lines(s + [BannedBuff], r) == Lines(s, r)
  {
    assert (s + [BannedBuff])[..|s|] == s;
  }

  /** Since BannedBuff is never reported, the warning has exactly one line
      per infringement after its header. */
  lemma MessageLength(c: L.Configuration, g: Toggles, t: PrefixTables, p: Player)
    requires WellFormed(p)
    ensures var r := Detect(c, g, t, p); |Message(r)| == 1 + |r.infringements|
  {
  }

  lemma LinesSnoc(s: seq<Infringement>, i: nat, r: Report)
    requires i < |s|
    ensures Lines(s[..i + 1], r) == Lines(s[..i], r) + AsLines(LineFor(s[i], r))
  {
    assert s[..i + 1][..i] == s[..i];
  }

  /** One case of the switch in the StringBuilder loop. */
  method RenderLine(k: Infringement, r: Report) returns (added: seq<Line>)
    ensures added == AsLines(LineFor(k, r))
  {
    match k {
      case BannedItem => added := [Line(Messages.BannedItems, Items(r.bannedItems))];
      case BannedBuff => added := [];
      case IllegalPrefix => added := [Line(Messages.IllegalPrefix, NoEvidence)];
      case PrefixedArmour => added := [Line(Messages.PrefixedArmor, NoEvidence)];
      case PrefixedAmmo => added := [Line(Messages.PrefixedAmmo, NoEvidence)];
      case Duplication => added := [Line(Messages.DuplicateAccessory, NoEvidence)];
      case SeventhSlot => added := [Line(Messages.UsedSeventhSlot, NoEvidence)];
    }
  }

  /** The StringBuilder loop over the infringements. */
  method BuildMessage(r: Report) returns (lines: seq<Line>)
    ensures lines == Message(r)
  {
    lines := [Header];
    var i := 0;
    while i < |r.infringements|
      invariant 0 <= i <= |r.infringements|
      invariant lines == [Header] + Lines(r.infringements[..i], r)
    {
      var added := RenderLine(r.infringements[i], r);
      LinesSnoc(r.infringements, i, r);
      AppendAssoc([Header], Lines(r.infringements[..i], r), added);
      lines := lines + added;
      i := i + 1;
    }
    assert r.infringements[..i] == r.infringements;
  }

  // ---------------------------------------------------------------- buff stripping

  /** `bannedBuffs.ForEach(buff => player.SetBuff(buff, 0))` */
  function ClearBuffs(id: PlayerId, buffs: seq<int>): (a: seq<Action>)
    ensures |a| == |buffs|
    ensures forall i :: 0 <= i < |buffs| ==> a[i] == SetBuff(id, buffs[i], 0)
  {
    if buffs == [] then []
    else
      var n := |buffs| - 1;
      ClearBuffs(id, buffs[..n]) + [SetBuff(id, buffs[n], 0)]
  }

  lemma ClearBuffsSnoc(id: PlayerId, buffs: seq<int>, i: nat)
    requires i < |buffs|
    ensures ClearBuffs(id, buffs[..i + 1]) == ClearBuffs(id, buffs[..i]) + [SetBuff(id, buffs[i], 0)]
  {
    assert buffs[..i + 1][..i] == buffs[..i];
  }

  /** The notice naming the stripped buffs, then one SetBuff per slot. */
  function StripActions(id: PlayerId, buffs: seq<int>): seq<Action> {
    if buffs == [] then []
    else [Send(id, InfoMessage, [Line(Messages.BannedBuffs, Buffs(buffs))])] + ClearBuffs(id, buffs)
  }

  /** The banned-buff stage gets past its notice: nothing was stripped, or
      the record holds the notice's template. */
  predicate StripCompletes(messages: map<Messages.MessageKey, string>, buffs: seq<int>) {
    buffs == [] || Messages.BannedBuffs in messages
  }

  /** A fresh older record lacks the warning's header template, so no warning
      is ever sent with it, and the buff notice's template, so no buff is ever
      stripped with it. */
  lemma DefaultRecordNeverWarns(r: Report, buffs: seq<int>)
    ensures !Renders(Message(r), L.Default().messages)
    ensures buffs != [] ==> !StripCompletes(L.Default().messages, buffs)
  {
    L.MissingMessageKeys();
  }

  // ---------------------------------------------------------------- notices

  /** OnRegionEntered: the restricted-region notice is sent when the notice
      and the region check are on, the region is restricted, and the player is
      not exempt. */
  predicate RegionNoticeSent(c: L.Configuration, g: Toggles, player: Option<Player>, region: string) {
    && g.notifyEnterRestrictedRegion
    && g.enableRegionCheck
    && region in c.restrictedRegions
    && player.Some?
    && !HasPermission(player.value, IgnoreRegion)
  }

  // ---------------------------------------------------------------- the plugin

  class Plugin {
    var config: L.Configuration
    var toggles: Toggles
    var illegalMeleePrefixes: seq<int>
    var illegalRangedPrefixes: seq<int>
    var illegalMagicPrefixes: seq<int>
    /** The "pvpchecks_lastwarned" data of each player. */
    var lastWarned: map<PlayerId, int>
    /** Everything the plugin has asked the host to do, oldest first. */
    var outbox: seq<Action>

    function Tables(): PrefixTables
      reads this
    {
      PrefixTables(illegalMeleePrefixes, illegalRangedPrefixes, illegalMagicPrefixes)
    }

    /** The plugin object before GameInitialize. The source leaves the record
        null until OnInit loads it; no hook runs before that, and the model
        starts from the default record instead. */
    constructor (g: Toggles)
      ensures config == L.Default() && toggles == g
      ensures illegalMeleePrefixes == [] && illegalRangedPrefixes == [] && illegalMagicPrefixes == []
      ensures lastWarned == map[] && outbox == []
    {
      config := L.Default();
      toggles := g;
      illegalMeleePrefixes := [];
      illegalRangedPrefixes := [];
      illegalMagicPrefixes := [];
      lastWarned := map[];
      outbox := [];
    }

    /** OnInit: install the record read from disk and append the derived
        illegal prefixes to the three lists. */
    method OnInit(loaded: L.Configuration, g: Toggles)
      modifies this
      ensures config == loaded && toggles == g
      ensures illegalMeleePrefixes == old(illegalMeleePrefixes) + loaded.rangedPrefixIDs + loaded.magicPrefixIDs
      ensures illegalRangedPrefixes == old(illegalRangedPrefixes) + loaded.meleePrefixIDs + loaded.magicPrefixIDs
      ensures illegalMagicPrefixes == old(illegalMagicPrefixes) + loaded.meleePrefixIDs + loaded.rangedPrefixIDs
      ensures old(Tables()) == PrefixTables([], [], []) ==>
        Tables() == DeriveIllegal(loaded.meleePrefixIDs, loaded.rangedPrefixIDs, loaded.magicPrefixIDs)
      ensures lastWarned == old(lastWarned) && outbox == old(outbox)
    {
      config := loaded;
      toggles := g;
      illegalMeleePrefixes := illegalMeleePrefixes + config.rangedPrefixIDs;
      illegalMeleePrefixes := illegalMeleePrefixes + config.magicPrefixIDs;
      illegalRangedPrefixes := illegalRangedPrefixes + config.meleePrefixIDs;
      illegalRangedPrefixes := illegalRangedPrefixes + config.magicPrefixIDs;
      illegalMagicPrefixes := illegalMagicPrefixes + config.meleePrefixIDs;
      illegalMagicPrefixes := illegalMagicPrefixes + config.rangedPrefixIDs;
    }

    /** OnReload: the record is replaced, the derived prefix lists are not. */
    method OnReload(loaded: L.Configuration, g: Toggles, requester: Option<PlayerId>)
      modifies this
      ensures config == loaded && toggles == g
      ensures Tables() == old(Tables())
      ensures lastWarned == old(lastWarned)
      ensures outbox == old(outbox) + (if requester.Some? then [ReloadConfirmed(requester.value)] else [])
    {
      config := loaded;
      toggles := g;
      if requester.Some? {
        outbox := outbox + [ReloadConfirmed(requester.value)];
      }
    }

    /** The banned-buff branch of OnPlayerUpdate: notify the player, then
        the ForEach that clears each stripped buff. `completes` is false when
        the notice's template is missing from the record: the lookup throws
        before any buff is cleared, and the handler goes no further. */
    method StripBuffs(id: PlayerId, buffs: seq<int>) returns (completes: bool)
      modifies this`outbox
      ensures Tables() == old(Tables())
      ensures completes <==> StripCompletes(config.messages, buffs)
      ensures outbox == old(outbox) + (if completes then StripActions(id, buffs) else [])
    {
      if |buffs| == 0 {
        return true;
      }
      if Messages.BannedBuffs !in config.messages {
        return false;
      }
      completes := true;
      var notice := Send(id, InfoMessage, [Line(Messages.BannedBuffs, Buffs(buffs))]);
      outbox := outbox + [notice];
      ClearSlots(id, buffs);
      assert outbox == old(outbox) + ([notice] + ClearBuffs(id, buffs));
    }

    /** The ForEach that sets each stripped buff slot to 0, in slot order. */
    method ClearSlots(id: PlayerId, buffs: seq<int>)
      modifies this`outbox
      ensures outbox == old(outbox) + ClearBuffs(id, buffs)
    {
      var i := 0;
      while i < |buffs|
        invariant 0 <= i <= |buffs|
        invariant outbox == old(outbox) + ClearBuffs(id, buffs[..i])
      {
        ClearBuffsSnoc(id, buffs, i);
        outbox := outbox + [SetBuff(id, buffs[i], 0)];
        i := i + 1;
      }
      assert buffs[..i] == buffs;
    }

    /** Send `a`; a template missing from the record throws instead, and the
        handler goes no further. */
    method Reply(a: Action)
      modifies this`outbox
      ensures outbox == old(outbox) + Deliver(a, config.messages)
    {
      if a.Send? && !Renders(a.lines, config.messages) {
        return;
      }
      outbox := outbox + [a];
    }

    /** The enforcement half of OnPlayerUpdate, for a non-empty report. */
    method Punish(id: PlayerId, r: Report, now: int)
      modifies this
      ensures config == old(config) && toggles == old(toggles) && Tables() == old(Tables())
      ensures var o := Enforcement.Enforce(id, toggles.disablePvP, toggles.messageDisplayDelayInMS,
                                           old(lastWarned), now, Message(r), config.messages);
        outbox == old(outbox) + o.actions && lastWarned == o.lastWarned
    {
      Enforcement.EnforceSteps(id, toggles.disablePvP, toggles.messageDisplayDelayInMS, lastWarned, now, Message(r), config.messages);
      outbox := outbox + [Disable(id)];
      if toggles.disablePvP {
        outbox := outbox + [SetPvP(id, false)];
      }
      ghost var penalties := [Disable(id)] + (if toggles.disablePvP then [SetPvP(id, false)] else []);
      assert outbox == old(outbox) + penalties;
      if id in lastWarned && now - lastWarned[id] < toggles.messageDisplayDelayInMS {
        return;
      }
      var lines := BuildMessage(r);
      if !Renders(lines, config.messages) {
        // A template missing from the record throws out of the loop above.
        return;
      }
      lastWarned := lastWarned[id := Enforcement.Stamp(now)];
      outbox := outbox + [Send(id, ErrorMessage, lines)];
      assert outbox == old(outbox) + (penalties + [Send(id, ErrorMessage, lines)]);
    }

    /** OnPlayerUpdate: strip banned buffs, then collect and enforce with the
        warning cooldown. The buff notice is not subject to the cooldown. */
    method OnPlayerUpdate(id: PlayerId, player: Option<Player>, now: int)
      requires player.Some? ==> WellFormed(player.value)
      modifies this
      ensures config == old(config) && toggles == old(toggles) && Tables() == old(Tables())
      ensures player.None? ==> lastWarned == old(lastWarned) && outbox == old(outbox)
      ensures player.Some? ==>
        var r := Detect(config, toggles, Tables(), player.value);
        var strip := StripActions(id, r.strippedBuffs);
        && (!StripCompletes(config.messages, r.strippedBuffs) ==>
              lastWarned == old(lastWarned) && outbox == old(outbox))
        && (StripCompletes(config.messages, r.strippedBuffs) && r.infringements == [] ==>
              lastWarned == old(lastWarned) && outbox == old(outbox) + strip)
        && (StripCompletes(config.messages, r.strippedBuffs) && r.infringements != [] ==>
              var o := Enforcement.Enforce(id, toggles.disablePvP, toggles.messageDisplayDelayInMS,
                                           old(lastWarned), now, Message(r), config.messages);
              outbox == old(outbox) + strip + o.actions && lastWarned == o.lastWarned)
    {
      if player.None? {
        return;
      }
      var r := CollectInfringements(config, toggles, Tables(), player.value);
      var completes := StripBuffs(id, r.strippedBuffs);
      if !completes {
        return;
      }
      if |r.infringements| > 0 {
        Punish(id, r, now);
      }
    }

    /** OnRegionEntered. */
    method OnRegionEntered(id: PlayerId, player: Option<Player>, region: string)
      modifies this
      ensures config == old(config) && toggles == old(toggles) && Tables() == old(Tables())
      ensures lastWarned == old(lastWarned)
      ensures outbox == old(outbox) +
        (if RegionNoticeSent(config, toggles, player, region)
         then Deliver(Send(id, InfoMessage, [Line(Messages.RegionRestricted, NoEvidence)]), config.messages) else [])
    {
      if !toggles.notifyEnterRestrictedRegion { return; }
      if !toggles.enableRegionCheck { return; }
      if region !in config.restrictedRegions { return; }
      if player.None? { return; }
      if HasPermission(player.value, IgnoreRegion) { return; }
      Reply(Send(id, InfoMessage, [Line(Messages.RegionRestricted, NoEvidence)]));
    }

    /** additem/removeitem: `matches` is what GetItemByIdOrName returned for
        the second parameter. */
    method EditBannedItems(sender: PlayerId, permissions: set<string>, add: bool, paramCount: nat, matches: seq<Item>)
      modifies this
      ensures toggles == old(toggles) && Tables() == old(Tables()) && lastWarned == old(lastWarned)
      ensures CommandEdit !in permissions ==>
        config == old(config) && outbox == old(outbox) + Deliver(ErrorReply(sender, Messages.NoPermission, NoEvidence), config.messages)
      ensures CommandEdit in permissions && paramCount != 2 ==>
        config == old(config) && outbox == old(outbox) + Deliver(ErrorReply(sender, Messages.InvalidSyntaxAddDelItem, NoEvidence), config.messages)
      ensures CommandEdit in permissions && paramCount == 2 && Lookup.SingleMatch(matches).Failure? ==>
        config == old(config)
        && outbox == old(outbox) + Deliver(LookupReply(sender, Lookup.SingleMatch(matches).error, Messages.InvalidItemType), config.messages)
      ensures CommandEdit in permissions && paramCount == 2 && |matches| == 1 ==>
        var e := BanLists.Edit(old(config.bannedItems), matches[0].netID, add);
        && config == (if e.Edited? then old(config).(bannedItems := e.list) else old(config))
        && outbox == old(outbox) + Deliver(BanLists.EditReply(sender, e, add, BanLists.ItemMessages, Items([matches[0]])), config.messages)
    {
      if CommandEdit !in permissions {
        Reply(ErrorReply(sender, Messages.NoPermission, NoEvidence));
        return;
      }
      if paramCount != 2 {
        Reply(ErrorReply(sender, Messages.InvalidSyntaxAddDelItem, NoEvidence));
        return;
      }
      var found := Lookup.SingleMatch(matches);
      if found.Failure? {
        Reply(LookupReply(sender, found.error, Messages.InvalidItemType));
        return;
      }
      var item := found.value;
      var e := BanLists.Edit(config.bannedItems, item.netID, add);
      if e.Edited? {
        config := config.(bannedItems := e.list);
      }
      Reply(BanLists.EditReply(sender, e, add, BanLists.ItemMessages, Items([item])));
    }

    /** addproj/removeproj: `projectile` is the second parameter parsed by
        Int32.Parse. */
    method EditBannedProjectiles(sender: PlayerId, permissions: set<string>, add: bool, paramCount: nat, projectile: int)
      modifies this
      ensures toggles == old(toggles) && Tables() == old(Tables()) && lastWarned == old(lastWarned)
      ensures CommandEdit !in permissions ==>
        config == old(config) && outbox == old(outbox) + Deliver(ErrorReply(sender, Messages.NoPermission, NoEvidence), config.messages)
      ensures CommandEdit in permissions && paramCount != 2 ==>
        config == old(config)
        && outbox == old(outbox) + Deliver(ErrorReply(sender, Messages.InvalidSyntaxAddDelProjectile, NoEvidence), config.messages)
      ensures CommandEdit in permissions && paramCount == 2 ==>
        var e := BanLists.Edit(old(config.bannedProjectiles), projectile, add);
        && config == (if e.Edited? then old(config).(bannedProjectiles := e.list) else old(config))
        && outbox == old(outbox) + Deliver(BanLists.EditReply(sender, e, add, BanLists.ProjectileMessages, Projectiles([projectile])), config.messages)
    {
      if CommandEdit !in permissions {
        Reply(ErrorReply(sender, Messages.NoPermission, NoEvidence));
        return;
      }
      if paramCount != 2 {
        Reply(ErrorReply(sender, Messages.InvalidSyntaxAddDelProjectile, NoEvidence));
        return;
      }
      var e := BanLists.Edit(config.bannedProjectiles, projectile, add);
      if e.Edited? {
        config := config.(bannedProjectiles := e.list);
      }
      Reply(BanLists.EditReply(sender, e, add, BanLists.ProjectileMessages, Projectiles([projectile])));
    }

    /** addregion/removeregion: `region` is the name GetRegionByName found for
        `argument`, if any. */
    method EditRestrictedRegions(sender: PlayerId, permissions: set<string>, add: bool, paramCount: nat,
                                 argument: string, region: Option<string>)
      modifies this
      ensures toggles == old(toggles) && Tables() == old(Tables()) && lastWarned == old(lastWarned)
      ensures CommandEdit !in permissions ==>
        config == old(config) && outbox == old(outbox) + Deliver(ErrorReply(sender, Messages.NoPermission, NoEvidence), config.messages)
      ensures CommandEdit in permissions && paramCount != 2 ==>
        config == old(config)
        && outbox == old(outbox) + Deliver(ErrorReply(sender, Messages.InvalidSyntaxAddDelRegion, NoEvidence), config.messages)
      ensures CommandEdit in permissions && paramCount == 2 && region.None? ==>
        config == old(config)
        && outbox == old(outbox) + Deliver(ErrorReply(sender, Messages.NoSuchRegion, Argument(argument)), config.messages)
      ensures CommandEdit in permissions && paramCount == 2 && region.Some? ==>
        var e := BanLists.Edit(old(config.restrictedRegions), region.value, add);
        && config == (if e.Edited? then old(config).(restrictedRegions := e.list) else old(config))
        && outbox == old(outbox) + Deliver(BanLists.EditReply(sender, e, add, BanLists.RegionMessages, Regions([region.value])), config.messages)
    {
      if CommandEdit !in permissions {
        Reply(ErrorReply(sender, Messages.NoPermission, NoEvidence));
        return;
      }
      if paramCount != 2 {
        Reply(ErrorReply(sender, Messages.InvalidSyntaxAddDelRegion, NoEvidence));
        return;
      }
      if region.None? {
        Reply(ErrorReply(sender, Messages.NoSuchRegion, Argument(argument)));
        return;
      }
      var name := region.value;
      var e := BanLists.Edit(config.restrictedRegions, name, add);
      if e.Edited? {
        config := config.(restrictedRegions := e.list);
      }
      Reply(BanLists.EditReply(sender, e, add, BanLists.RegionMessages, Regions([name])));
    }

    /** addbuff/removebuff: `parsed` is Int32.TryParse of `argument`. Any
        integer is accepted; the refusals and the removal echo the argument,
        the addition names the buff. */
    method EditBannedBuffs(sender: PlayerId, permissions: set<string>, add: bool, paramCount: nat,
                           argument: string, parsed: Option<int>)
      modifies this
      ensures toggles == old(toggles) && Tables() == old(Tables()) && lastWarned == old(lastWarned)
      ensures CommandEdit !in permissions ==>
        config == old(config) && outbox == old(outbox) + Deliver(ErrorReply(sender, Messages.NoPermission, NoEvidence), config.messages)
      ensures CommandEdit in permissions && paramCount != 2 ==>
        config == old(config)
        && outbox == old(outbox) + Deliver(ErrorReply(sender, Messages.InvalidSyntaxAddDelBuff, NoEvidence), config.messages)
      ensures CommandEdit in permissions && paramCount == 2 && parsed.None? ==>
        config == old(config)
        && outbox == old(outbox) + Deliver(ErrorReply(sender, Messages.InvalidBuffType, Argument(argument)), config.messages)
      ensures CommandEdit in permissions && paramCount == 2 && parsed.Some? ==>
        var e := BanLists.Edit(old(config.bannedBuffs), parsed.value, add);
        var evidence := if e.Edited? && add then Buffs([parsed.value]) else Argument(argument);
        && config == (if e.Edited? then old(config).(bannedBuffs := e.list) else old(config))
        && outbox == old(outbox) + Deliver(BanLists.EditReply(sender, e, add, BanLists.BuffMessages, evidence), config.messages)
    {
      if CommandEdit !in permissions {
        Reply(ErrorReply(sender, Messages.NoPermission, NoEvidence));
        return;
      }
      if paramCount != 2 {
        Reply(ErrorReply(sender, Messages.InvalidSyntaxAddDelBuff, NoEvidence));
        return;
      }
      if parsed.None? {
        Reply(ErrorReply(sender, Messages.InvalidBuffType, Argument(argument)));
        return;
      }
      var buff := parsed.value;
      if !add {
        if buff !in config.bannedBuffs {
          Reply(ErrorReply(sender, Messages.BuffRemoveNotExist, Argument(argument)));
          return;
        }
        config := config.(bannedBuffs := RemoveFirst(config.bannedBuffs, buff));
        Reply(Send(sender, SuccessMessage, [Line(Messages.SuccessDelBuff, Argument(argument))]));
        return;
      }
      if buff in config.bannedBuffs {
        Reply(ErrorReply(sender, Messages.BuffAddAlreadyExist, Argument(argument)));
        return;
      }
      config := config.(bannedBuffs := config.bannedBuffs + [buff]);
      Reply(Send(sender, SuccessMessage, [Line(Messages.SuccessAddBuff, Buffs([buff]))]));
    }
  }

  /** The older buff command takes IDs the current one refuses: 338 is
      appended to a list that lacks it, while BuffFromString rejects it. */
  lemma OutOfRangeBuffAccepted(list: seq<int>, byName: seq<int>)
    requires Lookup.MaxBuffID + 1 !in list
    ensures BanLists.Edit(list, Lookup.MaxBuffID + 1, true) == BanLists.Edited(list + [338])
    ensures Lookup.BuffFromString(Some(338), byName).Failure?
  {
  }
}
